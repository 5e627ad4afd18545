/** What a course of moves does to the fields beside the board: en passant, castling rights, and the two counters. */
module Course {
  import opened Base
  import opened Squares
  import opened Pieces
  import opened Position
  import opened Rules
  import opened Closure
  import L = MoveLaws
  import Timeline
  import Notation

  // ----- en passant

  /** A pawn goes two ranks. */
  predicate DoubleStep(b: Cells, m: Move) {
    b[m.from].Man? && b[m.from].kind == Pawn && Abs(RankGap(m.from, m.to)) == 2
  }

  /** r is the capture in passing, by a pawn of the side to move beside it, of the pawn that m brought two ranks
      ahead. */
  predicate CapturesInPassing(q: Position, m: Move, r: Move) {
    && q.board[r.from] == Man(q.turn, Pawn)
    && RankOf(r.from) == RankOf(m.to) && Abs(FileGap(r.from, m.to)) == 1
    && FileOf(r.to) == FileOf(m.to) && 2 * RankOf(r.to) == RankOf(m.from) + RankOf(m.to)
    && r == Move(r.from, r.to, None, true, false)
  }

  lemma DoubleStepShape(p: Position, m: Move)
    requires Pseudo(p, p.turn, m) && DoubleStep(p.board, m)
    ensures PawnDouble(p, p.turn, m) && p.board[m.from] == Man(p.turn, Pawn)
    ensures FileOf(m.from) == FileOf(m.to)
    ensures RankOf(m.from) == p.turn.PawnRank() && RankOf(m.to) == p.turn.PawnRank() + 2 * p.turn.Forward()
  {
  }

  lemma LeftBehind(p: Position, m: Move)
    requires Pseudo(p, p.turn, m)
    ensures Appliable(p.board, m)
    ensures var e := Apply(p, m).ep;
      if DoubleStep(p.board, m)
      then e.Some? && FileOf(e.value) == FileOf(m.to) && 2 * RankOf(e.value) == RankOf(m.from) + RankOf(m.to)
      else e.None?
  {
    PseudoAppliable(p, m);
    if p.board[m.from].kind == Pawn {
      if DoubleStep(p.board, m) {
        DoubleStepShape(p, m);
      }
    }
  }

  lemma OnlyPawnsPass(q: Position, r: Move)
    ensures Pseudo(q, q.turn, r) && r.enPassant <==> q.board[r.from] == Man(q.turn, Pawn) && PawnEnPassant(q, q.turn, r)
  {
  }

  lemma SameSquare(s: Square, t: Square)
    requires FileOf(s) == FileOf(t) && RankOf(s) == RankOf(t)
    ensures s == t
  {
  }

  /** The captures in passing after a move are exactly those of the pawns beside a pawn that just went two ranks. */
  lemma EnPassantExactly(p: Position, m: Move, r: Move)
    requires Valid(p) && Pseudo(p, p.turn, m)
    ensures Appliable(p.board, m)
    ensures var q := Apply(p, m);
      Pseudo(q, q.turn, r) && r.enPassant <==> DoubleStep(p.board, m) && CapturesInPassing(q, m, r)
  {
    LeftBehind(p, m);
    EnPassantAfter(p, m);
    OnlyPawnsPass(Apply(p, m), r);
    hide Pseudo, Valid;
    if DoubleStep(p.board, m) {
      InPassing(p, m, r);
    }
  }

  lemma InPassing(p: Position, m: Move, r: Move)
    requires Pseudo(p, p.turn, m) && DoubleStep(p.board, m) && Appliable(p.board, m)
    requires var q := Apply(p, m); q.ep.Some? && EnPassantFits(q.board, q.turn, q.ep.value)
    requires var e := Apply(p, m).ep.value;
      FileOf(e) == FileOf(m.to) && 2 * RankOf(e) == RankOf(m.from) + RankOf(m.to)
    ensures var q := Apply(p, m);
      q.board[r.from] == Man(q.turn, Pawn) && PawnEnPassant(q, q.turn, r) <==> CapturesInPassing(q, m, r)
  {
    DoubleStepShape(p, m);
    var q := Apply(p, m);
    assert q.turn == p.turn.Other();
    hide Pseudo, ApplyBoard, Apply, DoubleStep, RightsAfter;
    if CapturesInPassing(q, m, r) {
      SameSquare(r.to, q.ep.value);
    }
  }

  /** And each takes the pawn that went by. */
  lemma PassedPawnFalls(p: Position, m: Move, r: Move)
    requires Valid(p) && Pseudo(p, p.turn, m) && Appliable(p.board, m) && DoubleStep(p.board, m)
    requires CapturesInPassing(Apply(p, m), m, r)
    ensures var q := Apply(p, m);
      && q.board[m.to] == Man(p.turn, Pawn)
      && Pseudo(q, q.turn, r) && Appliable(q.board, r) && ApplyBoard(q.board, r)[m.to] == Empty
  {
    EnPassantExactly(p, m, r);
    EnPassantAfter(p, m);
    DoubleStepShape(p, m);
    PlainBoard(p.board, m);
    var q := Apply(p, m);
    EnPassantBoard(q, r);
    hide Pseudo, ApplyBoard, Apply, DoubleStep, RightsAfter, Valid;
    assert RankOf(PassedSquare(q.board, r)) == RankOf(m.to) && FileOf(PassedSquare(q.board, r)) == FileOf(m.to);
    SameSquare(PassedSquare(q.board, r), m.to);
  }

  // ----- how many men are left

  function Men(b: Cells): set<Square> {
    set s: Square | b[s].Man?
  }

  lemma Swapped(a: set<Square>, b: set<Square>, from: Square, to: Square)
    requires from in a && from != to && b == a - {from} + {to}
    ensures |b| == |a| - (if to in a then 1 else 0)
  {
    assert b == (a - {from} - {to}) + {to};
  }

  lemma PlainMen(p: Position, m: Move)
    requires EnPassantHolds(p) && Pseudo(p, p.turn, m) && !m.enPassant && !m.castle
    ensures Appliable(p.board, m)
    ensures |Men(ApplyBoard(p.board, m))| == |Men(p.board)| - (if Captures(p.board, m) then 1 else 0)
  {
    AppliedCell(p, m, m.to);
    PlainBoard(p.board, m);
    hide Pseudo, ApplyBoard;
    assert Men(ApplyBoard(p.board, m)) == Men(p.board) - {m.from} + {m.to};
    Swapped(Men(p.board), Men(ApplyBoard(p.board, m)), m.from, m.to);
  }

  lemma PassingMen(p: Position, m: Move)
    requires EnPassantHolds(p) && Pseudo(p, p.turn, m) && m.enPassant
    ensures Appliable(p.board, m) && Captures(p.board, m)
    ensures |Men(ApplyBoard(p.board, m))| == |Men(p.board)| - 1
  {
    EnPassantBoard(p, m);
    AppliedCell(p, m, m.to);
    assert p.board[m.to] == Empty;
    hide Pseudo, ApplyBoard;
    var before, passed := Men(p.board), PassedSquare(p.board, m);
    assert Men(ApplyBoard(p.board, m)) == before - {passed} - {m.from} + {m.to};
    Swapped(before - {passed}, Men(ApplyBoard(p.board, m)), m.from, m.to);
  }

  lemma CastledMen(p: Position, m: Move)
    requires Pseudo(p, p.turn, m) && m.castle
    ensures Appliable(p.board, m) && !Captures(p.board, m)
    ensures |Men(ApplyBoard(p.board, m))| == |Men(p.board)|
  {
    CastlingBoard(p, m);
    CastlingShape(p, p.turn, m);
    hide Pseudo, ApplyBoard, Castling;
    var w := WingOf(m.to).value;
    var before, over := Men(p.board), (w.king + w.target) / 2;
    var between := before - {m.from} + {m.to};
    assert w.rook != m.from && w.rook != m.to && over != m.from && over != m.to && over != w.rook;
    assert Men(ApplyBoard(p.board, m)) == between - {w.rook} + {over};
    Swapped(before, between, m.from, m.to);
    Swapped(between, Men(ApplyBoard(p.board, m)), w.rook, over);
  }

  /** A move that captures leaves one man fewer, any other leaves as many. */
  lemma MenAfter(p: Position, m: Move)
    requires EnPassantHolds(p) && Pseudo(p, p.turn, m)
    ensures Appliable(p.board, m)
    ensures |Men(ApplyBoard(p.board, m))| == |Men(p.board)| - (if Captures(p.board, m) then 1 else 0)
  {
    if m.castle {
      CastledMen(p, m);
    } else if m.enPassant {
      PassingMen(p, m);
    } else {
      PlainMen(p, m);
    }
  }

  // ----- one ply

  /** A side moves, or passes as `push_null` lets it. */
  datatype Ply = Moves(m: Move) | Passes

  /** What a ply that can be pushed leads to: `san` refuses a move that takes the king. */
  function Next(p: Position, ply: Ply): Option<Position> {
    match ply
    case Moves(m) => if Legal(p, m) && !TakesKing(p, m) then Some(Apply(p, m)) else None
    case Passes => Some(ApplyNull(p))
  }

  lemma NextValid(p: Position, ply: Ply)
    requires Valid(p) && Next(p, ply).Some?
    ensures Valid(Next(p, ply).value) && Next(p, ply).value.turn == p.turn.Other()
  {
    match ply
    case Moves(m) => LegalMoveKeepsRules(p, m);
    case Passes => NullMoveKeepsRules(p);
  }

  /** No pawn moves and no man falls. */
  predicate Quiet(p: Position, ply: Ply, q: Position) {
    ply.Moves? ==> p.board[ply.m.from].Man? && p.board[ply.m.from].kind != Pawn && |Men(q.board)| == |Men(p.board)|
  }

  lemma NextCounters(p: Position, ply: Ply)
    requires Valid(p) && Next(p, ply).Some?
    ensures var q := Next(p, ply).value;
      && q.halfmove == (if Quiet(p, ply, q) then p.halfmove + 1 else 0)
      && q.fullmove == p.fullmove + (if p.turn.Black? then 1 else 0)
  {
    if ply.Moves? {
      MenAfter(p, ply.m);
      hide Pseudo, ApplyBoard, Valid, Captures, RightsAfter, InCheck;
    }
  }

  /** A right is given up only by its king's move, or by one from or onto its corner. */
  lemma RightLost(b: Cells, m: Move, castling: string, w: Wing)
    requires Appliable(b, m) && w in WINGS && w.right in castling
    requires w.right !in RightsAfter(b, m, castling)
    ensures b[m.from] == Man(w.color, King) || m.from == w.rook || m.to == w.rook
  {
  }

  /** It is not given up for nothing: king and rook are then no longer both at home. */
  lemma LostForCause(p: Position, m: Move, w: Wing)
    requires Valid(p) && Pseudo(p, p.turn, m) && Supported(p.board, w)
    requires p.board[m.from] == Man(w.color, King) || m.from == w.rook || m.to == w.rook
    ensures Appliable(p.board, m) && !Supported(ApplyBoard(p.board, m), w)
  {
    AppliedCell(p, m, m.from);
    PseudoHeld(p, m);
    assert OneKing(p.board, w.color) by {
      assert w.color.White? || w.color.Black?;
    }
    hide Pseudo, ApplyBoard, Valid, Touched;
    if p.board[m.from] == Man(w.color, King) {
      OnlyKing(p.board, w.color, m.from);
      OnlyKing(p.board, w.color, w.king);
    }
  }

  lemma PseudoHeld(p: Position, m: Move)
    requires Pseudo(p, p.turn, m)
    ensures Held(p.board, m.from, p.turn)
  {
  }

  lemma MoveKeepsRight(p: Position, m: Move, w: Wing)
    requires Valid(p) && Pseudo(p, p.turn, m) && !TakesKing(p, m) && w in WINGS
    ensures Appliable(p.board, m)
    ensures w.right in RightsAfter(p.board, m, p.castling) <==>
      w.right in p.castling && Supported(ApplyBoard(p.board, m), w)
  {
    RightsAfterSupported(p, m);
    var i :| 0 <= i < 4 && w == WINGS[i];
    if w.right in RightsAfter(p.board, m, p.castling) {
      SurvivingRight(p.board, m, p.castling, w);
    } else if w.right in p.castling {
      RightLost(p.board, m, p.castling, w);
      LostForCause(p, m, w);
    }
  }

  lemma NextRight(p: Position, ply: Ply, c: Color, side: L.Side)
    requires Valid(p) && Next(p, ply).Some?
    ensures var q := Next(p, ply).value;
      L.RightOf(c, side) in q.castling <==> L.RightOf(c, side) in p.castling && L.AtHome(q.board, c, side)
  {
    L.WingShape(c, side);
    if L.RightOf(c, side) in p.castling {
      RightMeansHome(p, c, side);
    }
    hide L.WingFor, L.KingHome, L.RookHome, L.RightOf, Pseudo, ApplyBoard, RightsAfter, InCheck, Valid;
    if ply.Moves? {
      MoveKeepsRight(p, ply.m, L.WingFor(c, side));
    }
  }

  lemma RightMeansHome(p: Position, c: Color, side: L.Side)
    requires Valid(p) && L.RightOf(c, side) in p.castling
    ensures L.AtHome(p.board, c, side)
  {
    L.WingShape(c, side);
    var i :| 0 <= i < 4 && L.WingFor(c, side) == WINGS[i];
    assert Supported(p.board, WINGS[i]);
  }

  // ----- a course of plies

  /** The positions of a course, the first included, as far as its plies can be pushed. */
  function Trail(p: Position, plies: seq<Ply>): (trail: seq<Position>)
    ensures 1 <= |trail| <= |plies| + 1 && trail[0] == p
    decreases |plies|
  {
    if plies == [] || Next(p, plies[0]).None? then [p] else [p] + Trail(Next(p, plies[0]).value, plies[1..])
  }

  predicate Pushable(p: Position, plies: seq<Ply>) {
    |Trail(p, plies)| == |plies| + 1
  }

  function Final(p: Position, plies: seq<Ply>): Position {
    Trail(p, plies)[|Trail(p, plies)| - 1]
  }

  lemma FirstPly(p: Position, plies: seq<Ply>)
    requires plies != [] && Pushable(p, plies)
    ensures Next(p, plies[0]).Some?
    ensures var q := Next(p, plies[0]).value;
      Trail(p, plies) == [p] + Trail(q, plies[1..]) && Pushable(q, plies[1..])
        && Final(p, plies) == Final(q, plies[1..])
  {
  }

  /** A right is held at the end exactly when it was held before and king and rook have stood at home all along. */
  lemma {:induction false} RightsHistory(p: Position, plies: seq<Ply>, c: Color, side: L.Side)
    requires Valid(p) && Pushable(p, plies)
    ensures L.RightOf(c, side) in Final(p, plies).castling <==>
      L.RightOf(c, side) in p.castling && forall q :: q in Trail(p, plies) ==> L.AtHome(q.board, c, side)
    decreases |plies|
  {
    hide Valid, Next, L.RightOf, L.AtHome;
    if L.RightOf(c, side) in p.castling {
      RightMeansHome(p, c, side);
    }
    if plies != [] {
      FirstPly(p, plies);
      var q := Next(p, plies[0]).value;
      NextValid(p, plies[0]);
      NextRight(p, plies[0], c, side);
      hide Trail, Pushable, Final;
      RightsHistory(q, plies[1..], c, side);
      assert q == Trail(q, plies[1..])[0] && q in Trail(q, plies[1..]);
    }
  }

  /** Sides alternate, and the move number rises with every ply of Black. */
  lemma {:induction false} MovesNumbered(p: Position, plies: seq<Ply>)
    requires Valid(p) && Pushable(p, plies)
    ensures var q := Final(p, plies);
      && q.turn == (if |plies| % 2 == 0 then p.turn else p.turn.Other())
      && q.fullmove == p.fullmove + (|plies| + if p.turn.Black? then 1 else 0) / 2
    decreases |plies|
  {
    hide Valid, Next, Quiet;
    if plies != [] {
      FirstPly(p, plies);
      NextValid(p, plies[0]);
      NextCounters(p, plies[0]);
      hide Trail, Pushable, Final;
      MovesNumbered(Next(p, plies[0]).value, plies[1..]);
    }
  }

  /** All plies from the k-th on are quiet. */
  predicate QuietFrom(p: Position, plies: seq<Ply>, k: nat)
    requires Pushable(p, plies)
  {
    forall i :: k <= i < |plies| ==> Quiet(Trail(p, plies)[i], plies[i], Trail(p, plies)[i + 1])
  }

  lemma QuietRest(p: Position, plies: seq<Ply>, k: nat)
    requires plies != [] && Pushable(p, plies) && QuietFrom(p, plies, k)
    ensures var q := Next(p, plies[0]).value;
      Pushable(q, plies[1..]) && QuietFrom(q, plies[1..], if k == 0 then 0 else k - 1)
  {
    FirstPly(p, plies);
    hide Next, Quiet, Trail, Pushable;
    var q, rest := Next(p, plies[0]).value, plies[1..];
    forall i | (if k == 0 then 0 else k - 1) <= i < |rest|
      ensures Quiet(Trail(q, rest)[i], rest[i], Trail(q, rest)[i + 1])
    {
      assert Quiet(Trail(p, plies)[i + 1], plies[i + 1], Trail(p, plies)[i + 2]);
    }
  }

  lemma {:induction false} QuietClock(p: Position, plies: seq<Ply>)
    requires Valid(p) && Pushable(p, plies) && QuietFrom(p, plies, 0)
    ensures Final(p, plies).halfmove == p.halfmove + |plies|
    decreases |plies|
  {
    hide Valid, Next, Quiet;
    if plies != [] {
      FirstPly(p, plies);
      NextValid(p, plies[0]);
      NextCounters(p, plies[0]);
      QuietRest(p, plies, 0);
      var q := Next(p, plies[0]).value;
      assert Quiet(Trail(p, plies)[0], plies[0], Trail(p, plies)[1]) && Trail(p, plies)[1] == q;
      hide Trail, Pushable, Final, QuietFrom;
      QuietClock(q, plies[1..]);
    }
  }

  /** The halfmove clock counts the plies since a pawn last moved or a man last fell, or since the start. */
  lemma {:induction false} ClockCounts(p: Position, plies: seq<Ply>, k: nat)
    requires Valid(p) && Pushable(p, plies) && k <= |plies| && QuietFrom(p, plies, k)
    requires k > 0 ==> !Quiet(Trail(p, plies)[k - 1], plies[k - 1], Trail(p, plies)[k])
    ensures Final(p, plies).halfmove == (if k == 0 then p.halfmove else 0) + |plies| - k
    decreases |plies|
  {
    hide Valid, Next, Quiet;
    if k == 0 {
      QuietClock(p, plies);
    } else {
      FirstPly(p, plies);
      NextValid(p, plies[0]);
      NextCounters(p, plies[0]);
      QuietRest(p, plies, k);
      var q, rest := Next(p, plies[0]).value, plies[1..];
      assert Trail(p, plies)[k] == Trail(q, rest)[k - 1];
      hide Trail, Pushable, Final, QuietFrom;
      if k == 1 {
        QuietClock(q, rest);
      } else {
        assert Trail(p, plies)[k - 1] == Trail(q, rest)[k - 2];
        ClockCounts(q, rest, k - 1);
      }
    }
  }

  // ----- courses are what the board's operations and games make

  /** `push` and `push_null` that are not refused are plies. */
  lemma PushesArePlies(s: Timeline.Session, m: Move)
    requires Valid(s.pos)
    ensures Next(s.pos, Passes) == Some(Timeline.PushNull(s).pos)
    ensures Notation.San(s.pos, m).Ok? ==> Next(s.pos, Moves(m)) == Some(Timeline.Push(s, m).pos)
  {
    if Notation.San(s.pos, m).Ok? {
      Timeline.PrintableKeepsRules(s.pos, m);
    }
  }

  function AsPlies(ms: seq<Move>): seq<Ply> {
    if ms == [] then [] else [Moves(ms[0])] + AsPlies(ms[1..])
  }

  /** Every game from a safe position is a course. */
  lemma {:induction false} GamesAreCourses(p: Position, ms: seq<Move>)
    requires Valid(p) && Safe(p) && Play(p, ms).Some?
    ensures |AsPlies(ms)| == |ms| && Pushable(p, AsPlies(ms)) && Final(p, AsPlies(ms)) == Play(p, ms).value
    decreases |ms|
  {
    hide Valid, Safe, Pseudo, InCheck, Apply;
    if ms != [] {
      SafeMoveKeepsRules(p, ms[0]);
      GamesAreCourses(Apply(p, ms[0]), ms[1..]);
      assert AsPlies(ms)[1..] == AsPlies(ms[1..]);
    }
  }
}
