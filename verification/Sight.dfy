/** The walks the board scans by: fixed steps and rays, each proved against the geometry of Pieces. */
module Sight {
  import opened Base
  import opened Squares
  import opened Pieces

  type Steps = seq<(int, int)>

  const KNIGHT_STEPS: Steps := [(1, 2), (2, 1), (2, -1), (1, -2), (-1, -2), (-2, -1), (-2, 1), (-1, 2)]
  const KING_STEPS: Steps := [(-1, -1), (-1, 0), (-1, 1), (0, -1), (0, 1), (1, -1), (1, 0), (1, 1)]
  const STRAIGHTS: Steps := [(1, 0), (-1, 0), (0, 1), (0, -1)]
  const DIAGONALS: Steps := [(1, 1), (1, -1), (-1, 1), (-1, -1)]
  const ALL_LINES: Steps := DIAGONALS + STRAIGHTS

  function Sign(x: int): int {
    if x == 0 then 0 else if x > 0 then 1 else -1
  }

  /** t lies on the ray that leaves s in direction (df, dr). */
  predicate OnRay(s: Square, t: Square, df: int, dr: int) {
    Aligned(s, t) && Sign(FileGap(s, t)) == df && Sign(RankGap(s, t)) == dr
  }

  predicate Direction(df: int, dr: int) {
    -1 <= df <= 1 && -1 <= dr <= 1 && !(df == 0 && dr == 0)
  }

  ghost predicate Directions(dirs: Steps) {
    Distinct(dirs) && forall i :: 0 <= i < |dirs| ==> Direction(dirs[i].0, dirs[i].1)
  }

  /** The targets of a fixed list of steps. */
  method StepTargets(s: Square, steps: Steps) returns (out: seq<Square>)
    requires Distinct(steps)
    ensures Distinct(out)
    ensures forall t: Square :: t in out <==> (FileGap(s, t), RankGap(s, t)) in steps
  {
    out := [];
    for i := 0 to |steps|
      invariant Distinct(out)
      invariant forall t: Square :: t in out <==> (FileGap(s, t), RankGap(s, t)) in steps[..i]
    {
      var f, r := FileOf(s) + steps[i].0, RankOf(s) + steps[i].1;
      assert steps[..i + 1] == steps[..i] + [steps[i]];
      if OnBoard(f, r) {
        assert (FileGap(s, At(f, r)), RankGap(s, At(f, r))) == steps[i];
        out := out + [At(f, r)];
      }
    }
    assert steps[..|steps|] == steps;
  }

  /** t is k steps from s in direction (df, dr). */
  predicate NthOnRay(s: Square, t: Square, df: int, dr: int, k: nat) {
    FileOf(t) == Step(FileOf(s), df, k) && RankOf(t) == Step(RankOf(s), dr, k)
  }

  lemma RayStep(s: Square, t: Square, df: int, dr: int, k: nat)
    requires Direction(df, dr) && 1 <= k < 8 && NthOnRay(s, t, df, dr, k)
    ensures OnRay(s, t, df, dr) && Span(s, t) == k
    ensures forall j: nat :: j <= k ==> Toward(s, t, j) == At(Step(FileOf(s), df, j), Step(RankOf(s), dr, j))
  {
  }

  lemma OnRayAt(s: Square, t: Square, df: int, dr: int)
    requires OnRay(s, t, df, dr)
    ensures 1 <= Span(s, t) < 8
    ensures NthOnRay(s, t, df, dr, Span(s, t))
  {
  }

  /** out lists the first |out| squares of the ray, and all but the last are empty. */
  predicate RayPrefix(b: Cells, s: Square, df: int, dr: int, out: seq<Square>) {
    && |out| < 8
    && (forall i :: 0 <= i < |out| ==> NthOnRay(s, out[i], df, dr, i + 1))
    && (forall i :: 0 <= i < |out| - 1 ==> b[out[i]] == Empty)
  }

  lemma RayPrefixMember(b: Cells, s: Square, df: int, dr: int, out: seq<Square>, i: nat)
    requires Direction(df, dr) && RayPrefix(b, s, df, dr, out) && i < |out|
    ensures OnRay(s, out[i], df, dr) && Span(s, out[i]) == i + 1 && Open(b, s, out[i])
  {
    assert NthOnRay(s, out[i], df, dr, i + 1);
    RayStep(s, out[i], df, dr, i + 1);
    forall k | 1 <= k < i + 1
      ensures b[Toward(s, out[i], k)] == Empty
    {
      assert NthOnRay(s, out[k - 1], df, dr, k);
      assert Toward(s, out[i], k) == out[k - 1];
    }
  }

  lemma RayPrefixSound(b: Cells, s: Square, df: int, dr: int, out: seq<Square>)
    requires Direction(df, dr) && RayPrefix(b, s, df, dr, out)
    ensures Distinct(out)
    ensures forall t :: t in out ==> OnRay(s, t, df, dr) && Open(b, s, t)
  {
    forall i, j | 0 <= i < j < |out|
      ensures out[i] != out[j]
    {
      RayPrefixMember(b, s, df, dr, out, i);
      RayPrefixMember(b, s, df, dr, out, j);
    }
    forall t | t in out
      ensures OnRay(s, t, df, dr) && Open(b, s, t)
    {
      var i :| 0 <= i < |out| && out[i] == t;
      RayPrefixMember(b, s, df, dr, out, i);
    }
  }

  /** A square beyond the walked prefix has the whole prefix before it, so the last one was empty and the next on the
      board. */
  lemma RayPassesLast(b: Cells, s: Square, df: int, dr: int, out: seq<Square>, t: Square)
    requires Direction(df, dr) && RayPrefix(b, s, df, dr, out)
    requires OnRay(s, t, df, dr) && Open(b, s, t) && |out| < Span(s, t)
    ensures out != [] ==> b[out[|out| - 1]] == Empty
    ensures OnBoard(Step(FileOf(s), df, |out| + 1), Step(RankOf(s), dr, |out| + 1))
  {
    if out != [] {
      assert NthOnRay(s, out[|out| - 1], df, dr, |out|);
      assert Toward(s, t, |out|) == out[|out| - 1];
    }
  }

  /** A walk that stopped at the edge or at a man has passed every open square of the ray. */
  lemma RayPrefixComplete(b: Cells, s: Square, df: int, dr: int, out: seq<Square>, t: Square)
    requires Direction(df, dr) && RayPrefix(b, s, df, dr, out)
    requires (out != [] && b[out[|out| - 1]] != Empty)
      || !OnBoard(Step(FileOf(s), df, |out| + 1), Step(RankOf(s), dr, |out| + 1))
    requires OnRay(s, t, df, dr) && Open(b, s, t)
    ensures t in out
  {
    var k := Span(s, t);
    OnRayAt(s, t, df, dr);
    if k <= |out| {
      assert NthOnRay(s, out[k - 1], df, dr, k);
      assert t == out[k - 1];
    } else {
      RayStep(s, t, df, dr, k);
      RayPassesLast(b, s, df, dr, out, t);
    }
  }

  lemma RayExtended(b: Cells, s: Square, df: int, dr: int, out: seq<Square>)
    requires Direction(df, dr) && RayPrefix(b, s, df, dr, out) && (out != [] ==> b[out[|out| - 1]] == Empty)
    requires OnBoard(Step(FileOf(s), df, |out| + 1), Step(RankOf(s), dr, |out| + 1))
    ensures RayPrefix(b, s, df, dr, out + [At(Step(FileOf(s), df, |out| + 1), Step(RankOf(s), dr, |out| + 1))])
    ensures |out| < 7
  {
    var next := At(Step(FileOf(s), df, |out| + 1), Step(RankOf(s), dr, |out| + 1));
    assert NthOnRay(s, next, df, dr, |out| + 1);
  }

  /** The squares of one ray up to and including the first occupied one. */
  method RaySquares(b: Cells, s: Square, df: int, dr: int) returns (out: seq<Square>)
    requires Direction(df, dr)
    ensures Distinct(out)
    ensures forall t: Square :: t in out <==> OnRay(s, t, df, dr) && Open(b, s, t)
    ensures forall i :: 0 <= i < |out| - 1 ==> b[out[i]] == Empty
  {
    out := [];
    var f, r := FileOf(s) + df, RankOf(s) + dr;
    while OnBoard(f, r)
      invariant f == Step(FileOf(s), df, |out| + 1) && r == Step(RankOf(s), dr, |out| + 1)
      invariant RayPrefix(b, s, df, dr, out)
      invariant forall i :: 0 <= i < |out| ==> b[out[i]] == Empty
      decreases 8 - |out|
    {
      RayExtended(b, s, df, dr, out);
      hide OnRay, Open, Distinct, RayPrefix, Direction;
      out := out + [At(f, r)];
      if b[At(f, r)] != Empty {
        break;
      }
      f, r := f + df, r + dr;
    }
    hide RayPrefix;
    RayPrefixSound(b, s, df, dr, out);
    forall t: Square | OnRay(s, t, df, dr) && Open(b, s, t)
      ensures t in out
    {
      RayPrefixComplete(b, s, df, dr, out, t);
    }
  }

  /** The squares of several rays. */
  method LineTargets(b: Cells, s: Square, dirs: Steps) returns (out: seq<Square>)
    requires Directions(dirs)
    ensures Distinct(out)
    ensures forall t: Square :: t in out <==> Seen(b, s, t, dirs)
  {
    out := [];
    for i := 0 to |dirs|
      invariant Distinct(out)
      invariant forall t: Square :: t in out <==>
        Aligned(s, t) && Open(b, s, t) && (Sign(FileGap(s, t)), Sign(RankGap(s, t))) in dirs[..i]
    {
      var ray := RaySquares(b, s, dirs[i].0, dirs[i].1);
      assert dirs[..i + 1] == dirs[..i] + [dirs[i]];
      forall t: Square | t in out
        ensures t !in ray
      {
        assert dirs[i] !in dirs[..i];
      }
      DistinctConcat(out, ray);
      out := out + ray;
    }
    assert dirs[..|dirs|] == dirs;
  }

  // ----- the step and direction tables say what Strikes says

  lemma KnightTable(s: Square, t: Square)
    ensures Distinct(KNIGHT_STEPS)
    ensures (FileGap(s, t), RankGap(s, t)) in KNIGHT_STEPS <==>
      var f, r := Abs(FileGap(s, t)), Abs(RankGap(s, t)); (f == 1 && r == 2) || (f == 2 && r == 1)
  {
  }

  lemma KingTable(s: Square, t: Square)
    ensures Distinct(KING_STEPS)
    ensures (FileGap(s, t), RankGap(s, t)) in KING_STEPS <==>
      s != t && Abs(FileGap(s, t)) <= 1 && Abs(RankGap(s, t)) <= 1
  {
  }

  lemma LineTables(s: Square, t: Square)
    requires Aligned(s, t)
    ensures (Sign(FileGap(s, t)), Sign(RankGap(s, t))) in STRAIGHTS <==> Straight(s, t)
    ensures (Sign(FileGap(s, t)), Sign(RankGap(s, t))) in DIAGONALS <==> Diagonal(s, t)
    ensures (Sign(FileGap(s, t)), Sign(RankGap(s, t))) in ALL_LINES
  {
  }

  lemma LinesAreDirections()
    ensures Directions(STRAIGHTS) && Directions(DIAGONALS) && Directions(ALL_LINES)
  {
  }

  /** The pawn steps of a side, and the same steps walked backwards from the attacked square. */
  function PawnSteps(forward: int): Steps {
    [(-1, forward), (1, forward)]
  }

  lemma PawnTable(s: Square, t: Square, forward: int)
    requires forward != 0
    ensures Distinct(PawnSteps(forward))
    ensures (FileGap(s, t), RankGap(s, t)) in PawnSteps(forward) <==>
        Abs(FileGap(s, t)) == 1 && RankGap(s, t) == forward
  {
  }

  /** What the man on s strikes, as a table lookup from s. */
  predicate InReach(b: Cells, s: Square, t: Square)
    requires b[s].Man?
  {
    var gap := (FileGap(s, t), RankGap(s, t));
    match b[s].kind
    case Pawn => gap in PawnSteps(b[s].color.Forward())
    case Knight => gap in KNIGHT_STEPS
    case King => gap in KING_STEPS
    case Rook => Seen(b, s, t, STRAIGHTS)
    case Bishop => Seen(b, s, t, DIAGONALS)
    case Queen => Seen(b, s, t, ALL_LINES)
  }

  /** t is on an open line from s in one of the directions. */
  predicate Seen(b: Cells, s: Square, t: Square, dirs: Steps) {
    Aligned(s, t) && Open(b, s, t) && (Sign(FileGap(s, t)), Sign(RankGap(s, t))) in dirs
  }

  /** Looking out from a man's own square finds exactly what it strikes. */
  lemma ReachIsStrike(b: Cells, s: Square, t: Square)
    requires b[s].Man?
    ensures InReach(b, s, t) <==> Strikes(b, s, t)
  {
    PawnTable(s, t, b[s].color.Forward());
    KnightTable(s, t);
    KingTable(s, t);
    if Aligned(s, t) {
      LineTables(s, t);
    }
  }

  /** Looking back from the target finds the man: pawns by reversed steps, sliders by the reversed ray. */
  predicate SeenFrom(b: Cells, t: Square, s: Square)
    requires b[s].Man?
  {
    var gap := (FileGap(t, s), RankGap(t, s));
    match b[s].kind
    case Pawn => gap in PawnSteps(-b[s].color.Forward())
    case Knight => gap in KNIGHT_STEPS
    case King => gap in KING_STEPS
    case Rook => Seen(b, t, s, STRAIGHTS)
    case Bishop => Seen(b, t, s, DIAGONALS)
    case Queen => Seen(b, t, s, STRAIGHTS) || Seen(b, t, s, DIAGONALS)
  }

  /** The two scans agree: what is seen looking back from t is what strikes t. */
  lemma SeenFromIsStrike(b: Cells, s: Square, t: Square)
    requires b[s].Man?
    ensures SeenFrom(b, t, s) <==> Strikes(b, s, t)
  {
    PawnTable(t, s, -b[s].color.Forward());
    KnightTable(t, s);
    KingTable(t, s);
    if Aligned(s, t) {
      OpenSymmetric(b, s, t);
      LineTables(t, s);
    }
  }
}
