/** The six FEN fields as a value, and the structural rules a position must meet. */
module Position {
  import opened Base
  import opened Squares
  import opened Pieces

  datatype Position = Position(
    board: Cells,
    turn: Color,
    castling: string,
    ep: Option<Square>,
    halfmove: nat,
    fullmove: nat
  )

  /** One castling right: its letter, the king's and rook's home squares. */
  datatype Wing = Wing(right: char, color: Color, king: Square, rook: Square, target: Square, path: seq<Square>,
                       safe: seq<Square>)

  const WINGS: seq<Wing> := [
    Wing('K', White, 4, 7, 6, [5, 6], [5, 6]),
    Wing('Q', White, 4, 0, 2, [3, 2, 1], [3, 2]),
    Wing('k', Black, 60, 63, 62, [61, 62], [61, 62]),
    Wing('q', Black, 60, 56, 58, [59, 58, 57], [59, 58])
  ]

  predicate RightsText(s: string) {
    && (forall c :: c in s ==> c in "KQkq")
    && (forall i, j :: 0 <= i < j < |s| ==> s[i] != s[j])
  }

  predicate Supported(b: Cells, w: Wing) {
    b[w.king] == Man(w.color, King) && b[w.rook] == Man(w.color, Rook)
  }

  /** Every right still held has its king and rook at home. */
  predicate RightsSupported(b: Cells, castling: string) {
    forall i :: 0 <= i < 4 && WINGS[i].right in castling ==> Supported(b, WINGS[i])
  }

  predicate NoPawnOnEnds(b: Cells) {
    forall s: Square :: b[s].Man? && b[s].kind == Pawn ==> RankOf(s) != 0 && RankOf(s) != 7
  }

  predicate KingsApart(b: Cells) {
    forall s: Square, t: Square :: b[s] == Man(White, King) && b[t] == Man(Black, King) ==> Span(s, t) > 1
  }

  /** The en-passant square is empty and lies just behind a pawn that can have arrived by a double push. */
  predicate EnPassantFits(b: Cells, turn: Color, e: Square) {
    && RankOf(e) == (if turn.White? then 5 else 2)
    && b[e] == Empty
    && b[e - 8 * turn.Forward()] == Man(turn.Other(), Pawn)
    && b[e + 8 * turn.Forward()] == Empty
  }

  predicate EnPassantHolds(p: Position) {
    p.ep.Some? ==> EnPassantFits(p.board, p.turn, p.ep.value)
  }

  /** The structural rules of `set_fen`. */
  ghost predicate Valid(p: Position) {
    && OneKing(p.board, White)
    && OneKing(p.board, Black)
    && RightsText(p.castling)
    && p.fullmove >= 1
    && NoPawnOnEnds(p.board)
    && KingsApart(p.board)
    && RightsSupported(p.board, p.castling)
    && EnPassantHolds(p)
  }
}
