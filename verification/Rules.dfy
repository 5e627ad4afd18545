/** Moves: which are pseudo-legal and legal, what a move does, and what every move keeps. */
module Rules {
  import opened Base
  import opened Squares
  import opened Pieces
  import opened Position

  /** What a pawn may become. */
  type Officer = k: Kind | k != Pawn && k != King witness Queen

  datatype Move = Move(from: Square, to: Square, promotion: Option<Officer>, enPassant: bool, castle: bool)

  predicate Plain(m: Move) {
    m.promotion.None? && !m.enPassant && !m.castle
  }

  // ----- pseudo-legal moves

  /** A pawn reaching its last rank promotes, any other does not. */
  predicate PromotionFits(c: Color, m: Move) {
    m.promotion.Some? <==> RankOf(m.to) == c.LastRank()
  }

  predicate PawnAdvance(p: Position, c: Color, m: Move) {
    && FileGap(m.from, m.to) == 0 && RankGap(m.from, m.to) == c.Forward()
    && p.board[m.to] == Empty
    && PromotionFits(c, m) && !m.enPassant && !m.castle
  }

  predicate PawnDouble(p: Position, c: Color, m: Move) {
    && RankOf(m.from) == c.PawnRank()
    && FileGap(m.from, m.to) == 0 && RankGap(m.from, m.to) == 2 * c.Forward()
    && p.board[(m.from + m.to) / 2] == Empty && p.board[m.to] == Empty
    && Plain(m)
  }

  predicate PawnCapture(p: Position, c: Color, m: Move) {
    && Abs(FileGap(m.from, m.to)) == 1 && RankGap(m.from, m.to) == c.Forward()
    && Held(p.board, m.to, c.Other())
    && PromotionFits(c, m) && !m.enPassant && !m.castle
  }

  predicate PawnEnPassant(p: Position, c: Color, m: Move) {
    && Abs(FileGap(m.from, m.to)) == 1 && RankGap(m.from, m.to) == c.Forward()
    && !Held(p.board, m.to, c.Other()) && p.ep == Some(m.to)
    && m.promotion.None? && m.enPassant && !m.castle
  }

  predicate PawnMove(p: Position, c: Color, m: Move) {
    PawnAdvance(p, c, m) || PawnDouble(p, c, m) || PawnCapture(p, c, m) || PawnEnPassant(p, c, m)
  }

  /** Any other man goes where it strikes, unless a man of its own stands there. */
  predicate PieceMove(p: Position, c: Color, m: Move)
    requires p.board[m.from].Man?
  {
    Strikes(p.board, m.from, m.to) && !Held(p.board, m.to, c) && Plain(m)
  }

  function WingOf(target: Square): (w: Option<Wing>)
    ensures w.Some? ==> w.value in WINGS && w.value.target == target
  {
    match target
    case 6 => Some(WINGS[0])
    case 2 => Some(WINGS[1])
    case 62 => Some(WINGS[2])
    case 58 => Some(WINGS[3])
    case _ => None
  }

  function CastlingMove(w: Wing): Move {
    Move(w.king, w.target, None, false, true)
  }

  predicate CastlesOn(p: Position, c: Color, m: Move, w: Wing) {
    && w.color == c
    && m == CastlingMove(w)
    && !InCheck(p.board, c)
    && w.right in p.castling
    && p.board[w.rook] == Man(c, Rook)
    && (forall i :: 0 <= i < |w.path| ==> p.board[w.path[i]] == Empty)
    && (forall i :: 0 <= i < |w.safe| ==> !AttackedBy(p.board, w.safe[i], c.Other()))
  }

  predicate Castling(p: Position, c: Color, m: Move) {
    WingOf(m.to).Some? && CastlesOn(p, c, m, WingOf(m.to).value)
  }

  /** The moves `pseudo_moves(c)` yields. */
  predicate Pseudo(p: Position, c: Color, m: Move) {
    Held(p.board, m.from, c) &&
    match p.board[m.from].kind
    case Pawn => PawnMove(p, c, m)
    case King => PieceMove(p, c, m) || Castling(p, c, m)
    case _ => PieceMove(p, c, m)
  }

  // ----- making a move

  /** Where the captured pawn of an en-passant move stands, as `_apply` computes it. */
  function PassedSquare(b: Cells, m: Move): int {
    if b[m.from] == Man(White, Pawn) then m.to - 8 else m.to + 8
  }

  /** What `_apply` asks of a move. */
  predicate Appliable(b: Cells, m: Move) {
    b[m.from].Man? && (m.enPassant ==> 0 <= PassedSquare(b, m) < 64)
  }

  function Relocate(b: Cells, from: Square, to: Square): Cells {
    b[to := b[from]][from := Empty]
  }

  function ApplyBoard(b: Cells, m: Move): Cells
    requires Appliable(b, m)
  {
    var b1 := if m.enPassant then b[PassedSquare(b, m) := Empty] else b;
    var b2 := b1[m.to := b[m.from]][m.from := Empty];
    var b3 := if m.promotion.Some? then b2[m.to := Man(b[m.from].color, m.promotion.value)] else b2;
    if !m.castle then b3
    else if m.to == 6 then Relocate(b3, 7, 5)
    else if m.to == 2 then Relocate(b3, 0, 3)
    else if m.to == 62 then Relocate(b3, 63, 61)
    else if m.to == 58 then Relocate(b3, 56, 59)
    else b3
  }

  /** `rights.replace(c, '')`. */
  function Without(s: string, c: char): (r: string)
    ensures forall x :: x in r <==> x in s && x != c
  {
    if s == [] then []
    else if s[0] == c then Without(s[1..], c)
    else [s[0]] + Without(s[1..], c)
  }

  function Captures(b: Cells, m: Move): bool
    requires Appliable(b, m)
  {
    if m.enPassant then b[PassedSquare(b, m)].Man? else b[m.to].Man?
  }

  /** Moving from a corner, or capturing on it, gives up the right of that corner. */
  function LoseCorner(b: Cells, m: Move, corner: Square, right: char, rights: string): string
    requires Appliable(b, m)
  {
    if m.from == corner || (m.to == corner && Captures(b, m)) then Without(rights, right) else rights
  }

  function RightsAfter(b: Cells, m: Move, castling: string): string
    requires Appliable(b, m)
  {
    var man := b[m.from];
    var r0 := if man == Man(White, King) then Without(Without(castling, 'K'), 'Q') else castling;
    var r1 := if man == Man(Black, King) then Without(Without(r0, 'k'), 'q') else r0;
    var r2 := LoseCorner(b, m, 0, 'Q', r1);
    var r3 := LoseCorner(b, m, 7, 'K', r2);
    var r4 := LoseCorner(b, m, 56, 'q', r3);
    LoseCorner(b, m, 63, 'k', r4)
  }

  /** `_apply`. */
  function Apply(p: Position, m: Move): Position
    requires Appliable(p.board, m)
  {
    var pawn := p.board[m.from].kind == Pawn;
    Position(
      ApplyBoard(p.board, m),
      p.turn.Other(),
      RightsAfter(p.board, m, p.castling),
      if pawn && Abs(m.to - m.from) == 16 then Some((m.to + m.from) / 2) else None,
      if pawn || Captures(p.board, m) then 0 else p.halfmove + 1,
      if p.turn.Black? then p.fullmove + 1 else p.fullmove)
  }

  /** `push_null`'s transition. */
  function ApplyNull(p: Position): Position {
    p.(ep := None, halfmove := p.halfmove + 1,
       fullmove := if p.turn.Black? then p.fullmove + 1 else p.fullmove,
       turn := p.turn.Other())
  }

  // ----- legality

  /** The moves `legal_moves` returns. */
  predicate Legal(p: Position, m: Move) {
    && Pseudo(p, p.turn, m)
    && Appliable(p.board, m)
    && !InCheck(ApplyBoard(p.board, m), p.turn)
  }

  predicate TakesKing(p: Position, m: Move) {
    p.board[m.to].Man? && p.board[m.to].kind == King
  }

  // ----- what a pseudo-legal move does to each square

  lemma PseudoAppliable(p: Position, m: Move)
    requires Pseudo(p, p.turn, m)
    ensures Appliable(p.board, m)
  {
  }

  /** The castling wing of a move, when it castles. */
  lemma CastlingShape(p: Position, c: Color, m: Move)
    requires Castling(p, c, m)
    ensures m.castle && m.promotion.None? && !m.enPassant
    ensures var w := WingOf(m.to).value;
      && w in WINGS && m.from == w.king && m.to == w.target && w.color == c
      && p.board[w.rook] == Man(c, Rook) && p.board[w.target] == Empty && p.board[(w.king + w.target) / 2] == Empty
  {
    var w := WingOf(m.to).value;
    assert p.board[w.path[0]] == Empty && p.board[w.path[1]] == Empty;
  }

  lemma CastlingByWing(p: Position, c: Color, m: Move)
    ensures Castling(p, c, m) <==> exists j :: 0 <= j < 4 && CastlesOn(p, c, m, WINGS[j])
  {
    if Castling(p, c, m) {
      var w := WingOf(m.to).value;
      assert w == WINGS[0] || w == WINGS[1] || w == WINGS[2] || w == WINGS[3];
    }
  }

  /** What stands on the destination after the move. */
  function Placed(b: Cells, m: Move): Cell
    requires b[m.from].Man?
  {
    if m.promotion.Some? then Man(b[m.from].color, m.promotion.value) else b[m.from]
  }

  lemma PlainBoard(b: Cells, m: Move)
    requires b[m.from].Man? && m.from != m.to && !m.enPassant && !m.castle
    ensures forall s: Square ::
      ApplyBoard(b, m)[s] == (if s == m.to then Placed(b, m) else if s == m.from then Empty else b[s])
  {
  }

  /** En passant: mover to the target, origin and passed pawn removed, nothing else. */
  lemma EnPassantBoard(p: Position, m: Move)
    requires EnPassantHolds(p) && Pseudo(p, p.turn, m) && m.enPassant
    ensures Appliable(p.board, m)
    ensures var cs := PassedSquare(p.board, m);
      && p.board[cs] == Man(p.turn.Other(), Pawn) && cs != m.from && cs != m.to
      && forall s: Square ::
        ApplyBoard(p.board, m)[s]
        == (if s == m.to then p.board[m.from] else if s == m.from || s == cs then Empty else p.board[s])
  {
  }

  /** Castling: king and rook change places as the wing says, nothing else moves. */
  lemma CastlingBoard(p: Position, m: Move)
    requires Pseudo(p, p.turn, m) && m.castle
    ensures Castling(p, p.turn, m) && p.board[m.from] == Man(p.turn, King)
    ensures var w := WingOf(m.to).value; var over := (w.king + w.target) / 2;
      forall s: Square ::
        ApplyBoard(p.board, m)[s] ==
        (if s == m.to then Man(p.turn, King) else if s == over then Man(p.turn, Rook)
         else if s == m.from || s == w.rook then Empty else p.board[s])
  {
    assert Castling(p, p.turn, m);
    CastlingShape(p, p.turn, m);
  }

  /** Squares a move can change: none outside these. */
  predicate Touched(p: Position, m: Move, s: Square)
    requires Appliable(p.board, m)
  {
    || s == m.from || s == m.to
    || (m.enPassant && s == PassedSquare(p.board, m))
    || (m.castle && WingOf(m.to).Some? && (s == WingOf(m.to).value.rook || s == (m.from + m.to) / 2))
  }

  /** The board after a pseudo-legal move, square by square, in one statement used by every rule below. */
  lemma AppliedCell(p: Position, m: Move, s: Square)
    requires EnPassantHolds(p) && Pseudo(p, p.turn, m)
    ensures Appliable(p.board, m) && m.from != m.to && !Held(p.board, m.to, p.turn)
    ensures ApplyBoard(p.board, m)[m.to] == Placed(p.board, m)
    ensures ApplyBoard(p.board, m)[m.from] == Empty
    ensures !Touched(p, m, s) ==> ApplyBoard(p.board, m)[s] == p.board[s]
    ensures s != m.to && ApplyBoard(p.board, m)[s] != p.board[s] ==>
      ApplyBoard(p.board, m)[s] == Empty || (m.castle && ApplyBoard(p.board, m)[s] == Man(p.turn, Rook))
    ensures s != m.to && s != m.from && p.board[s].Man? && p.board[s].kind == King ==>
        ApplyBoard(p.board, m)[s] == p.board[s]
  {
    if m.castle {
      CastlingBoard(p, m);
      CastlingShape(p, p.turn, m);
    } else if m.enPassant {
      EnPassantBoard(p, m);
    } else {
      PlainBoard(p.board, m);
    }
  }
}
