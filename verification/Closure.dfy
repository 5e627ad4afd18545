/** What every legal move keeps: the structural rules of `set_fen`, and the safety of the mover's king. */
module Closure {
  import opened Base
  import opened Squares
  import opened Pieces
  import opened Position
  import opened Rules

  /** The side that has just moved is not left in check. */
  predicate Safe(p: Position) {
    !InCheck(p.board, p.turn.Other())
  }

  /** A pseudo-legal capture goes where the man strikes. */
  lemma CaptureIsStrike(p: Position, c: Color, m: Move)
    requires Pseudo(p, c, m) && Held(p.board, m.to, c.Other())
    ensures Strikes(p.board, m.from, m.to)
  {
    if Castling(p, c, m) {
      CastlingShape(p, c, m);
    }
  }

  lemma TakenKingIsEnemy(p: Position, m: Move)
    requires EnPassantHolds(p) && Pseudo(p, p.turn, m) && TakesKing(p, m)
    ensures p.board[m.to] == Man(p.turn.Other(), King)
  {
    AppliedCell(p, m, m.to);
  }

  /** With the opponent's king unattacked, no pseudo-legal move takes it. */
  lemma NoKingCapture(p: Position, m: Move)
    requires EnPassantHolds(p) && OneKing(p.board, p.turn.Other()) && Safe(p)
    requires Pseudo(p, p.turn, m)
    ensures !TakesKing(p, m)
  {
    if TakesKing(p, m) {
      TakenKingIsEnemy(p, m);
      OnlyKing(p.board, p.turn.Other(), m.to);
      CaptureIsStrike(p, p.turn, m);
    }
  }

  /** After the move the mover's king stands on exactly one square: where it stood, or where it moved. */
  lemma OwnKingCell(p: Position, m: Move, k: Square, s: Square)
    requires EnPassantHolds(p) && OneKing(p.board, p.turn) && Pseudo(p, p.turn, m)
    requires KingSquare(p.board, p.turn) == Some(k)
    ensures Appliable(p.board, m)
    ensures ApplyBoard(p.board, m)[s] == Man(p.turn, King) <==> s == (if m.from == k then m.to else k)
  {
    AppliedCell(p, m, s);
    var after := ApplyBoard(p.board, m)[s];
    if s == m.to {
      assert after == Placed(p.board, m);
      if p.board[m.from] == Man(p.turn, King) {
        OnlyKing(p.board, p.turn, m.from);
      }
    } else if s == m.from {
      assert after == Empty;
    } else if p.board[s] == Man(p.turn, King) {
      OnlyKing(p.board, p.turn, s);
    } else {
      assert after == p.board[s] || after == Empty || after == Man(p.turn, Rook);
    }
  }

  lemma OtherKingCell(p: Position, m: Move, k: Square, s: Square)
    requires EnPassantHolds(p) && OneKing(p.board, p.turn.Other()) && Pseudo(p, p.turn, m) && !TakesKing(p, m)
    requires KingSquare(p.board, p.turn.Other()) == Some(k)
    ensures Appliable(p.board, m)
    ensures ApplyBoard(p.board, m)[s] == Man(p.turn.Other(), King) <==> s == k
  {
    AppliedCell(p, m, s);
    if p.board[s] == Man(p.turn.Other(), King) {
      OnlyKing(p.board, p.turn.Other(), s);
    }
  }

  lemma OwnKingAfter(p: Position, m: Move)
    requires EnPassantHolds(p) && OneKing(p.board, p.turn) && Pseudo(p, p.turn, m)
    ensures Appliable(p.board, m) && OneKing(ApplyBoard(p.board, m), p.turn)
  {
    PseudoAppliable(p, m);
    var k := KingSquare(p.board, p.turn).value;
    var home := if m.from == k then m.to else k;
    forall s: Square
      ensures ApplyBoard(p.board, m)[s] == Man(p.turn, King) <==> s == home
    {
      OwnKingCell(p, m, k, s);
    }
    assert ApplyBoard(p.board, m)[home] == Man(p.turn, King);
  }

  lemma OtherKingAfter(p: Position, m: Move)
    requires EnPassantHolds(p) && OneKing(p.board, p.turn.Other()) && Pseudo(p, p.turn, m) && !TakesKing(p, m)
    ensures Appliable(p.board, m) && OneKing(ApplyBoard(p.board, m), p.turn.Other())
  {
    PseudoAppliable(p, m);
    var k := KingSquare(p.board, p.turn.Other()).value;
    forall s: Square
      ensures ApplyBoard(p.board, m)[s] == Man(p.turn.Other(), King) <==> s == k
    {
      OtherKingCell(p, m, k, s);
    }
    assert ApplyBoard(p.board, m)[k] == Man(p.turn.Other(), King);
  }

  lemma PawnsAfter(p: Position, m: Move)
    requires EnPassantHolds(p) && NoPawnOnEnds(p.board) && Pseudo(p, p.turn, m)
    ensures Appliable(p.board, m) && NoPawnOnEnds(ApplyBoard(p.board, m))
  {
    AppliedCell(p, m, m.to);
    var b := ApplyBoard(p.board, m);
    forall s: Square | b[s].Man? && b[s].kind == Pawn
      ensures RankOf(s) != 0 && RankOf(s) != 7
    {
      AppliedCell(p, m, s);
    }
  }

  /** Two adjacent kings would check each other. */
  lemma UncheckedKingsApart(b: Cells, c: Color)
    requires OneKing(b, White) && OneKing(b, Black) && !InCheck(b, c)
    ensures KingsApart(b)
  {
    forall s: Square, t: Square | b[s] == Man(White, King) && b[t] == Man(Black, King)
      ensures Span(s, t) > 1
    {
      var own, other := if c.White? then s else t, if c.White? then t else s;
      OnlyKing(b, c, own);
      assert !(Held(b, other, c.Other()) && Strikes(b, other, own));
    }
  }

  lemma WithoutKeepsText(s: string, c: char)
    requires RightsText(s)
    ensures RightsText(Without(s, c))
  {
    if s != [] {
      assert RightsText(s[1..]) by {
        forall x | x in s[1..]
          ensures x in "KQkq"
        {
          assert x in s;
        }
      }
      WithoutKeepsText(s[1..], c);
      assert s[0] in s;
      assert s[0] !in s[1..];
    }
  }

  lemma RightsTextAfter(p: Position, m: Move)
    requires RightsText(p.castling) && Appliable(p.board, m)
    ensures RightsText(RightsAfter(p.board, m, p.castling))
  {
    forall s: string, c: char | RightsText(s)
      ensures RightsText(Without(s, c))
    {
      WithoutKeepsText(s, c);
    }
  }

  /** A right that survives the move was held before, its king did not move and its corner was not touched. */
  lemma SurvivingRight(b: Cells, m: Move, castling: string, w: Wing)
    requires Appliable(b, m) && w in WINGS
    requires w.right in RightsAfter(b, m, castling)
    ensures w.right in castling
    ensures b[m.from] != Man(w.color, King)
    ensures m.from != w.rook && !(m.to == w.rook && Captures(b, m))
  {
  }

  /** A man that the move neither moves nor captures stays, castling aside. */
  lemma BystanderStays(p: Position, m: Move, w: Wing)
    requires EnPassantHolds(p) && Pseudo(p, p.turn, m) && !TakesKing(p, m) && w in WINGS
    requires Supported(p.board, w) && p.board[m.from] != Man(w.color, King)
    requires m.from != w.rook && !(m.to == w.rook && Appliable(p.board, m) && Captures(p.board, m))
    ensures Appliable(p.board, m) && Supported(ApplyBoard(p.board, m), w)
  {
    AppliedCell(p, m, w.king);
    AppliedCell(p, m, w.rook);
    if m.castle {
      CastlingBoard(p, m);
      CastlingShape(p, p.turn, m);
    } else if m.enPassant {
      EnPassantBoard(p, m);
    } else {
      PlainBoard(p.board, m);
    }
  }

  lemma RightsAfterSupported(p: Position, m: Move)
    requires EnPassantHolds(p) && RightsSupported(p.board, p.castling) && Pseudo(p, p.turn, m) && !TakesKing(p, m)
    ensures Appliable(p.board, m)
    ensures RightsSupported(ApplyBoard(p.board, m), RightsAfter(p.board, m, p.castling))
  {
    PseudoAppliable(p, m);
    forall i | 0 <= i < 4 && WINGS[i].right in RightsAfter(p.board, m, p.castling)
      ensures Supported(ApplyBoard(p.board, m), WINGS[i])
    {
      SurvivingRight(p.board, m, p.castling, WINGS[i]);
      BystanderStays(p, m, WINGS[i]);
    }
  }

  lemma EnPassantAfter(p: Position, m: Move)
    requires Valid(p) && Pseudo(p, p.turn, m)
    ensures Appliable(p.board, m)
    ensures var q := Apply(p, m); q.ep.Some? ==> EnPassantFits(q.board, q.turn, q.ep.value)
  {
    PseudoAppliable(p, m);
    var q := Apply(p, m);
    if q.ep.Some? {
      assert PawnDouble(p, p.turn, m);
      PlainBoard(p.board, m);
    }
  }

  /** A legal move that takes no king leads from a valid position to a valid one whose mover is not in check. */
  lemma LegalMoveKeepsRules(p: Position, m: Move)
    requires Valid(p) && Legal(p, m) && !TakesKing(p, m)
    ensures Safe(Apply(p, m))
    ensures Valid(Apply(p, m))
  {
    OwnKingAfter(p, m);
    OtherKingAfter(p, m);
    PawnsAfter(p, m);
    UncheckedKingsApart(ApplyBoard(p.board, m), p.turn);
    RightsTextAfter(p, m);
    RightsAfterSupported(p, m);
    EnPassantAfter(p, m);
  }

  /** From a safe position every legal move is such a move. */
  lemma SafeMoveKeepsRules(p: Position, m: Move)
    requires Valid(p) && Safe(p) && Legal(p, m)
    ensures !TakesKing(p, m) && Valid(Apply(p, m)) && Safe(Apply(p, m))
  {
    NoKingCapture(p, m);
    LegalMoveKeepsRules(p, m);
  }

  /** The null move keeps the structural rules; it does not keep safety. */
  lemma NullMoveKeepsRules(p: Position)
    requires Valid(p)
    ensures Valid(ApplyNull(p))
    ensures Safe(ApplyNull(p)) <==> !InCheck(p.board, p.turn)
  {
  }

  // ----- whole games

  /** The position after a list of moves, as long as each is legal where it is played. */
  function Play(p: Position, ms: seq<Move>): Option<Position>
    decreases |ms|
  {
    if ms == [] then Some(p)
    else if Legal(p, ms[0]) then Play(Apply(p, ms[0]), ms[1..])
    else None
  }

  /** Along every game from a safe position the rules hold and the side that just moved is safe. */
  lemma {:induction false} GamesStaySafe(p: Position, ms: seq<Move>)
    requires Valid(p) && Safe(p)
    requires Play(p, ms).Some?
    ensures Valid(Play(p, ms).value) && Safe(Play(p, ms).value)
    decreases |ms|
  {
    if ms != [] {
      SafeMoveKeepsRules(p, ms[0]);
      GamesStaySafe(Apply(p, ms[0]), ms[1..]);
    }
  }
}
