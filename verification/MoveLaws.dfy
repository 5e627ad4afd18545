/** The moves in the words of the rules of chess: pawns go along open files, captures are strikes, and castling is
    told by files, ranks and the squares between. */
module MoveLaws {
  import opened Base
  import opened Squares
  import opened Pieces
  import opened Position
  import opened Rules
  import opened Closure

  // ----- how men strike

  /** How far two squares are along files and ranks together. */
  function Walk(s: Square, t: Square): int {
    Abs(FileGap(s, t)) + Abs(RankGap(s, t))
  }

  /** u lies on the straight or diagonal line between s and t: on the way for rook and king alike. */
  predicate Between(s: Square, u: Square, t: Square) {
    u != s && u != t && Walk(s, u) + Walk(u, t) == Walk(s, t) && Span(s, u) + Span(u, t) == Span(s, t)
  }

  predicate NothingBetween(b: Cells, s: Square, t: Square) {
    forall u: Square :: Between(s, u, t) ==> b[u] == Empty
  }

  lemma TowardIsBetween(s: Square, t: Square, k: nat)
    requires Aligned(s, t) && 1 <= k < Span(s, t)
    ensures Between(s, Toward(s, t, k), t)
  {
    hide FileOf, RankOf;
    var u := Toward(s, t, k);
    var f, r := FileGap(s, t), RankGap(s, t);
    assert FileGap(s, u) == Step(0, f, k) && RankGap(s, u) == Step(0, r, k);
    assert FileGap(u, t) == f - Step(0, f, k) && RankGap(u, t) == r - Step(0, r, k);
  }

  lemma BetweenIsToward(s: Square, u: Square, t: Square)
    requires Aligned(s, t) && Between(s, u, t)
    ensures 1 <= Span(s, u) < Span(s, t) && u == Toward(s, t, Span(s, u))
  {
    var k := Span(s, u);
    SameFileAndRank(s, u, t);
    var v := Toward(s, t, k);
    assert FileOf(v) == Step(FileOf(s), FileGap(s, t), k) && RankOf(v) == Step(RankOf(s), RankGap(s, t), k);
    SquareAt(u, v);
  }

  lemma SameFileAndRank(s: Square, u: Square, t: Square)
    requires Aligned(s, t) && Between(s, u, t)
    ensures 1 <= Span(s, u) < Span(s, t)
    ensures FileOf(u) == Step(FileOf(s), FileGap(s, t), Span(s, u))
    ensures RankOf(u) == Step(RankOf(s), RankGap(s, t), Span(s, u))
  {
    assert Span(s, u) > 0 && Span(u, t) > 0;
    hide FileOf, RankOf;
    assert FileGap(s, u) + FileGap(u, t) == FileGap(s, t) && RankGap(s, u) + RankGap(u, t) == RankGap(s, t);
  }

  lemma SquareAt(s: Square, t: Square)
    requires FileOf(s) == FileOf(t) && RankOf(s) == RankOf(t)
    ensures s == t
  {
  }

  lemma OpenExactly(b: Cells, s: Square, t: Square)
    requires Aligned(s, t)
    ensures Open(b, s, t) <==> NothingBetween(b, s, t)
  {
    hide Toward, Between, Span, Straight, Diagonal;
    if NothingBetween(b, s, t) {
      forall k | 1 <= k < Span(s, t)
        ensures b[Toward(s, t, k)] == Empty
      {
        TowardIsBetween(s, t, k);
      }
    }
    if Open(b, s, t) {
      forall u: Square | Between(s, u, t)
        ensures b[u] == Empty
      {
        BetweenIsToward(s, u, t);
      }
    }
  }

  lemma SmallSquares(x: int)
    requires -8 < x < 8
    ensures x * x == Abs(x) * Abs(x) && (Abs(x) == 0 <==> x * x == 0) && (Abs(x) == 1 <==> x * x == 1)
    ensures (Abs(x) == 2 <==> x * x == 4) && (Abs(x) >= 3 ==> x * x >= 9)
  {
  }

  lemma SquareAtGap(s: Square, t: Square)
    ensures s == t <==> FileGap(s, t) == 0 && RankGap(s, t) == 0
    ensures -8 < FileGap(s, t) < 8 && -8 < RankGap(s, t) < 8
  {
  }

  /** How each man strikes, by the squares of the distances and the lines it runs along. */
  lemma StrikesExactly(b: Cells, s: Square, t: Square)
    requires b[s].Man?
    ensures var f, r := FileGap(s, t), RankGap(s, t);
      var straight := s != t && (FileOf(s) == FileOf(t) || RankOf(s) == RankOf(t));
      var diagonal := s != t &&
        (FileOf(s) + RankOf(s) == FileOf(t) + RankOf(t) || FileOf(s) - RankOf(s) == FileOf(t) - RankOf(t));
      Strikes(b, s, t) <==>
        match b[s].kind
        case Pawn => f * f == 1 && r == (if b[s].color.White? then 1 else -1)
        case Knight => f * f + r * r == 5
        case King => 1 <= f * f + r * r <= 2
        case Rook => straight && NothingBetween(b, s, t)
        case Bishop => diagonal && NothingBetween(b, s, t)
        case Queen => (straight || diagonal) && NothingBetween(b, s, t)
  {
    if Aligned(s, t) {
      OpenExactly(b, s, t);
    }
    SquareAtGap(s, t);
    SmallSquares(FileGap(s, t));
    SmallSquares(RankGap(s, t));
    hide Open, NothingBetween;
  }

  // ----- pawns and captures

  /** The man on `from` can be moved to `to`, in some way or other. */
  ghost predicate CanGo(p: Position, c: Color, from: Square, to: Square) {
    exists m: Move :: Pseudo(p, c, m) && m.from == from && m.to == to
  }

  function Choice(c: Color, to: Square): Option<Officer> {
    if RankOf(to) == c.LastRank() then Some(Queen) else None
  }

  /** A man can take exactly the enemies it strikes. */
  lemma CapturesAreStrikes(p: Position, c: Color, from: Square, to: Square)
    requires Held(p.board, from, c) && Held(p.board, to, c.Other())
    ensures CanGo(p, c, from, to) <==> Strikes(p.board, from, to)
  {
    if CanGo(p, c, from, to) {
      var m: Move :| Pseudo(p, c, m) && m.from == from && m.to == to;
      CaptureIsStrike(p, c, m);
    }
    if Strikes(p.board, from, to) {
      var m := Move(from, to, if p.board[from].kind == Pawn then Choice(c, to) else None, false, false);
      assert Pseudo(p, c, m);
    }
  }

  /** How many ranks a pawn may go: two from where it started, else one. */
  function Reach(c: Color, from: Square): int {
    if RankOf(from) == HomeRank(c) + c.Forward() then 2 else 1
  }

  /** The target is straight ahead, within reach, and nothing stands between. */
  predicate Ahead(p: Position, c: Color, from: Square, to: Square) {
    FileGap(from, to) == 0 && 1 <= RankGap(from, to) * c.Forward() <= Reach(c, from) && Open(p.board, from, to)
  }

  /** Without capturing, a pawn goes straight ahead along an open file. */
  lemma PawnsGoAhead(p: Position, c: Color, from: Square, to: Square)
    requires p.board[from] == Man(c, Pawn) && p.board[to] == Empty && p.ep != Some(to)
    ensures CanGo(p, c, from, to) <==> Ahead(p, c, from, to)
  {
    var m := Move(from, to, Choice(c, to), false, false);
    assert Pseudo(p, c, m) ==> CanGo(p, c, from, to);
    PawnGoes(p, c, m);
    if x: Move :| Pseudo(p, c, x) && x.from == from && x.to == to {
      PawnGoes(p, c, x);
    }
    hide Pseudo, Open;
  }

  lemma PawnGoes(p: Position, c: Color, m: Move)
    requires p.board[m.from] == Man(c, Pawn) && p.board[m.to] == Empty && p.ep != Some(m.to)
    ensures Pseudo(p, c, m) ==> Ahead(p, c, m.from, m.to)
    ensures Ahead(p, c, m.from, m.to) && m == Move(m.from, m.to, Choice(c, m.to), false, false) ==> Pseudo(p, c, m)
  {
    if FileGap(m.from, m.to) == 0 && Abs(RankGap(m.from, m.to)) == 1 {
      assert Span(m.from, m.to) == 1;
    } else if FileGap(m.from, m.to) == 0 && Abs(RankGap(m.from, m.to)) == 2 {
      OneBetween(p.board, m.from, m.to);
    }
    hide Open, Span;
  }

  lemma OneBetween(b: Cells, s: Square, t: Square)
    requires FileGap(s, t) == 0 && Abs(RankGap(s, t)) == 2
    ensures Open(b, s, t) <==> b[(s + t) / 2] == Empty
  {
    assert Span(s, t) == 2 && Toward(s, t, 1) == (s + t) / 2;
  }

  /** On its last rank a pawn becomes any officer its side likes, and nothing else; elsewhere it stays a pawn. */
  lemma PromotionIsFree(p: Position, m: Move, k: Officer)
    requires EnPassantHolds(p) && Pseudo(p, p.turn, m) && p.board[m.from].kind == Pawn
    ensures m.promotion.Some? <==> RankOf(m.to) == HomeRank(p.turn.Other())
    ensures m.promotion.Some? ==> Pseudo(p, p.turn, m.(promotion := Some(k)))
  {
  }

  // ----- castling

  datatype Side = Short | Long

  function HomeRank(c: Color): int {
    if c.White? then 0 else 7
  }

  function KingHome(c: Color): (s: Square)
    ensures FileOf(s) == 4 && RankOf(s) == HomeRank(c)
  {
    if c.White? then 4 else 60
  }

  function RookHome(c: Color, side: Side): (s: Square)
    ensures FileOf(s) == (if side.Short? then 7 else 0) && RankOf(s) == HomeRank(c)
  {
    if side.Short? then KingHome(c) + 3 else KingHome(c) - 4
  }

  function KingTarget(c: Color, side: Side): (s: Square)
    ensures FileOf(s) == (if side.Short? then 6 else 2) && RankOf(s) == HomeRank(c)
  {
    if side.Short? then KingHome(c) + 2 else KingHome(c) - 2
  }

  function RookTarget(c: Color, side: Side): (s: Square)
    ensures FileOf(s) == (if side.Short? then 5 else 3) && RankOf(s) == HomeRank(c)
  {
    if side.Short? then KingHome(c) + 1 else KingHome(c) - 1
  }

  function RightOf(c: Color, side: Side): char {
    match (c, side)
    case (White, Short) => 'K'
    case (White, Long) => 'Q'
    case (Black, Short) => 'k'
    case (Black, Long) => 'q'
  }

  predicate AtHome(b: Cells, c: Color, side: Side) {
    b[KingHome(c)] == Man(c, King) && b[RookHome(c, side)] == Man(c, Rook)
  }

  /** s lies between the king's home and target, both included. */
  predicate Crossed(c: Color, side: Side, s: Square) {
    RankOf(s) == HomeRank(c) && (if side.Short? then 4 <= FileOf(s) <= 6 else 2 <= FileOf(s) <= 4)
  }

  predicate CanCastleTo(p: Position, c: Color, side: Side) {
    && AtHome(p.board, c, side)
    && RightOf(c, side) in p.castling
    && Open(p.board, KingHome(c), RookHome(c, side))
    && forall s: Square :: Crossed(c, side, s) ==> !AttackedBy(p.board, s, c.Other())
  }

  function Castled(c: Color, side: Side): Move {
    Move(KingHome(c), KingTarget(c, side), None, false, true)
  }

  function WingFor(c: Color, side: Side): Wing {
    match (c, side)
    case (White, Short) => WINGS[0]
    case (White, Long) => WINGS[1]
    case (Black, Short) => WINGS[2]
    case (Black, Long) => WINGS[3]
  }

  lemma WingShape(c: Color, side: Side)
    ensures var w := WingFor(c, side);
      && w.color == c && w.king == KingHome(c) && w.rook == RookHome(c, side)
      && w.target == KingTarget(c, side) && w.right == RightOf(c, side)
      && w in WINGS && WingOf(w.target) == Some(w)
  {
    match (c, side)
    case (White, Short) => assert WINGS[0] in WINGS;
    case (White, Long) => assert WINGS[1] in WINGS;
    case (Black, Short) => assert WINGS[2] in WINGS;
    case (Black, Long) => assert WINGS[3] in WINGS;
  }

  /** The squares the wing lists lie one after another from the king to the rook, and it guards the first two. */
  lemma WingPath(c: Color, side: Side)
    ensures var w := WingFor(c, side);
      && |w.path| == (if side.Short? then 2 else 3) && |w.safe| == 2
      && (forall i :: 0 <= i < |w.path| ==>
            w.path[i] == if side.Short? then KingHome(c) + (i + 1) else KingHome(c) - (i + 1))
      && (forall i :: 0 <= i < 2 ==> w.safe[i] == if side.Short? then KingHome(c) + (i + 1) else KingHome(c) - (i + 1))
  {
    match (c, side)
    case (White, Short) =>
    case (White, Long) =>
    case (Black, Short) =>
    case (Black, Long) =>
  }

  lemma HomesAligned(c: Color, side: Side)
    ensures var s, t := KingHome(c), RookHome(c, side);
      && Straight(s, t) && FileGap(s, t) == (if side.Short? then 3 else -4) && RankGap(s, t) == 0
      && Span(s, t) == (if side.Short? then 3 else 4)
  {
    hide FileOf, RankOf;
  }

  lemma KingHomeAt(c: Color)
    ensures KingHome(c) == 8 * HomeRank(c) + 4
  {
    hide FileOf, RankOf;
  }

  lemma TowardAt(s: Square, t: Square, k: nat)
    requires Aligned(s, t) && k <= Span(s, t)
    ensures Toward(s, t, k) == 8 * Step(RankOf(s), RankGap(s, t), k) + Step(FileOf(s), FileGap(s, t), k)
  {
    hide FileOf, RankOf, FileGap, RankGap, Step, Straight, Diagonal, Span;
  }

  lemma StepBy(x: int, k: nat)
    ensures Step(x, 0, k) == x && Step(x, 3, k) == x + k && Step(x, -4, k) == x - k
  {
  }

  lemma BetweenHomes(c: Color, side: Side, k: nat)
    requires k <= (if side.Short? then 3 else 4)
    ensures var s, t := KingHome(c), RookHome(c, side);
      Aligned(s, t) && k <= Span(s, t) && Toward(s, t, k) == if side.Short? then s + k else s - k
  {
    HomesAligned(c, side);
    assert Aligned(KingHome(c), RookHome(c, side));
    hide *;
    KingHomeAt(c);
    TowardAt(KingHome(c), RookHome(c, side), k);
    StepBy(HomeRank(c), k);
    StepBy(4, k);
  }

  lemma PathIsBetween(b: Cells, c: Color, side: Side)
    ensures Straight(KingHome(c), RookHome(c, side))
    ensures Open(b, KingHome(c), RookHome(c, side)) <==>
      var w := WingFor(c, side); forall i :: 0 <= i < |w.path| ==> b[w.path[i]] == Empty
  {
    hide Toward, Span, Straight, Diagonal, KingHome, RookHome, WingFor, FileOf, RankOf;
    var s, t := KingHome(c), RookHome(c, side);
    var path := WingFor(c, side).path;
    WingPath(c, side);
    HomesAligned(c, side);
    forall k | 1 <= k < Span(s, t)
      ensures Toward(s, t, k) == path[k - 1]
    {
      BetweenHomes(c, side, k);
    }
    if Open(b, s, t) {
      forall i | 0 <= i < |path|
        ensures b[path[i]] == Empty
      {
        assert b[Toward(s, t, i + 1)] == Empty;
      }
    }
  }

  lemma CrossedSquares(c: Color, side: Side, s: Square)
    ensures Crossed(c, side, s) <==> s == KingHome(c) || s in WingFor(c, side).safe
  {
    WingPath(c, side);
    hide WingFor;
    var step := if side.Short? then 1 else -1;
    var safe := WingFor(c, side).safe;
    assert safe[0] == KingHome(c) + step && safe[1] == KingHome(c) + 2 * step;
    assert safe == [safe[0], safe[1]];
    assert Crossed(c, side, s) <==> s == KingHome(c) || s == KingHome(c) + step || s == KingHome(c) + 2 * step;
  }

  lemma SafeIsCrossed(b: Cells, c: Color, side: Side)
    requires b[KingHome(c)] == Man(c, King) && OneKing(b, c)
    ensures (forall s: Square :: Crossed(c, side, s) ==> !AttackedBy(b, s, c.Other())) <==>
      var w := WingFor(c, side);
      !InCheck(b, c) && forall i :: 0 <= i < |w.safe| ==> !AttackedBy(b, w.safe[i], c.Other())
  {
    OnlyKing(b, c, KingHome(c));
    hide AttackedBy, Crossed;
    var w := WingFor(c, side);
    forall s: Square
      ensures Crossed(c, side, s) <==> s == KingHome(c) || s in w.safe
    {
      CrossedSquares(c, side, s);
    }
    assert forall i :: 0 <= i < |w.safe| ==> w.safe[i] in w.safe;
  }

  lemma CastlesOnExactly(p: Position, c: Color, side: Side, m: Move)
    requires OneKing(p.board, c)
    ensures Held(p.board, m.from, c) && p.board[m.from].kind == King && CastlesOn(p, c, m, WingFor(c, side)) <==>
      m == Castled(c, side) && CanCastleTo(p, c, side)
  {
    hide WingFor, InCheck, AttackedBy, Open, Crossed, OneKing, Span, Straight, FileOf, RankOf;
    hide KingHome, RookHome, KingTarget;
    WingShape(c, side);
    PathIsBetween(p.board, c, side);
    if p.board[KingHome(c)] == Man(c, King) {
      SafeIsCrossed(p.board, c, side);
    }
  }

  /** The castling moves are exactly these: to the g-file or the c-file of the home rank, king and rook at home, the
      right held, nothing between king and rook, and no square the king crosses attacked. */
  lemma CastlingExactly(p: Position, c: Color, m: Move)
    requires OneKing(p.board, c)
    ensures Pseudo(p, c, m) && m.castle <==> exists side :: m == Castled(c, side) && CanCastleTo(p, c, side)
  {
    CastlesOnExactly(p, c, Short, m);
    CastlesOnExactly(p, c, Long, m);
    CastlingByWing(p, c, m);
    assert Pseudo(p, c, m) && m.castle 
      <==> Held(p.board, m.from, c) && p.board[m.from].kind == King && Castling(p, c, m);
    assert WINGS[0].color == WINGS[1].color == White && WINGS[2].color == WINGS[3].color == Black;
  }

  /** King and rook stand on their targets, their homes are empty, nothing else moved. */
  lemma CastledBoard(p: Position, side: Side)
    requires OneKing(p.board, p.turn) && CanCastleTo(p, p.turn, side)
    ensures var c, m := p.turn, Castled(p.turn, side);
      && Appliable(p.board, m)
      && forall s: Square ::
        ApplyBoard(p.board, m)[s] ==
        if s == KingTarget(c, side) then Man(c, King) else if s == RookTarget(c, side) then Man(c, Rook)
        else if s == KingHome(c) || s == RookHome(c, side) then Empty else p.board[s]
  {
    var m := Castled(p.turn, side);
    CastlingExactly(p, p.turn, m);
    CastlingBoard(p, m);
    WingShape(p.turn, side);
    hide CanCastleTo, Pseudo, ApplyBoard;
  }

  // ----- which positions are valid

  /** Neither king stands where the other strikes. */
  predicate KingsDoNotTouch(b: Cells) {
    forall s: Square, t: Square :: b[s] == Man(White, King) && b[t] == Man(Black, King) ==> !Strikes(b, s, t)
  }

  predicate RightsAtHome(p: Position) {
    forall c: Color, side: Side :: RightOf(c, side) in p.castling ==> AtHome(p.board, c, side)
  }

  /** The pawn that went by e, put back where it came from: it could have gone two ranks. */
  predicate WentBy(p: Position, e: Square, from: Square, to: Square) {
    && FileGap(e, to) == 0 && 2 * RankOf(e) == RankOf(from) + RankOf(to)
    && p.board[to] == Man(p.turn.Other(), Pawn) && p.board[from] == Empty
    && PawnDouble(p.(board := p.board[from := p.board[to]][to := Empty]), p.turn.Other(),
                  Move(from, to, None, false, false))
  }

  lemma RightsMean(p: Position)
    ensures RightsSupported(p.board, p.castling) <==> RightsAtHome(p)
  {
    forall c: Color, side: Side
      ensures RightOf(c, side) == WingFor(c, side).right
      ensures AtHome(p.board, c, side) <==> Supported(p.board, WingFor(c, side))
    {
      WingShape(c, side);
    }
    hide AtHome, Supported;
    if RightsAtHome(p) {
      forall i | 0 <= i < 4 && WINGS[i].right in p.castling
        ensures Supported(p.board, WINGS[i])
      {
        var c, side := if i < 2 then White else Black, if i % 2 == 0 then Short else Long;
        assert WingFor(c, side) == WINGS[i];
      }
    }
    if RightsSupported(p.board, p.castling) {
      forall c: Color, side: Side | RightOf(c, side) in p.castling
        ensures AtHome(p.board, c, side)
      {
        var i := (if c.White? then 0 else 2) + if side.Short? then 0 else 1;
        assert WingFor(c, side) == WINGS[i];
      }
    }
  }

  lemma KingsMean(b: Cells)
    ensures KingsApart(b) <==> KingsDoNotTouch(b)
  {
    forall s: Square, t: Square | b[s] == Man(White, King) && b[t] == Man(Black, King)
      ensures Strikes(b, s, t) <==> Span(s, t) <= 1
    {
      assert s != t;
    }
    hide Strikes, Span;
  }

  lemma EnPassantMeans(p: Position, e: Square)
    ensures EnPassantFits(p.board, p.turn, e) <==> exists from: Square, to: Square :: WentBy(p, e, from, to)
  {
    if EnPassantFits(p.board, p.turn, e) {
      assert WentBy(p, e, e + 8 * p.turn.Forward(), e - 8 * p.turn.Forward());
    }
    if from: Square, to: Square :| WentBy(p, e, from, to) {
      assert (from + to) / 2 == e;
    }
  }

  /** The structural rules in the words of the game. */
  lemma ValidExactly(p: Position)
    ensures Valid(p) <==>
      && (forall c: Color :: OneKing(p.board, c)) && KingsDoNotTouch(p.board)
      && PawnsInside(p.board) && RightsText(p.castling) && RightsAtHome(p) && p.fullmove >= 1
      && (p.ep.Some? ==> exists from: Square, to: Square :: WentBy(p, p.ep.value, from, to))
  {
    RightsMean(p);
    KingsMean(p.board);
    if p.ep.Some? {
      EnPassantMeans(p, p.ep.value);
    }
    PawnsMean(p.board);
    KingsCount(p.board);
    hide RightsSupported, RightsAtHome, KingsApart, KingsDoNotTouch, EnPassantFits, WentBy, OneKing, RightsText;
    hide PawnsInside, NoPawnOnEnds;
  }

  /** Pawns stand between the home ranks. */
  predicate PawnsInside(b: Cells) {
    forall s: Square, c: Color :: b[s] == Man(c, Pawn) ==> 1 <= RankOf(s) <= 6
  }

  lemma PawnsMean(b: Cells)
    ensures NoPawnOnEnds(b) <==> PawnsInside(b)
  {
    forall s: Square
      ensures b[s].Man? && b[s].kind == Pawn <==> exists c: Color :: b[s] == Man(c, Pawn)
    {
    }
    hide RankOf;
  }

  lemma KingsCount(b: Cells)
    ensures (forall c: Color :: OneKing(b, c)) <==> OneKing(b, White) && OneKing(b, Black)
  {
    hide OneKing;
    if OneKing(b, White) && OneKing(b, Black) {
      forall c: Color
        ensures OneKing(b, c)
      {
        assert c == White || c == Black;
      }
    }
  }
}
