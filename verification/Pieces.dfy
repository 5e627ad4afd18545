/** Men, boards, and when a man on one square strikes another, stated geometrically. */
module Pieces {
  import opened Base
  import opened Squares

  datatype Color = White | Black {
    function Other(): Color {
      if White? then Black else White
    }

    /** The rank step of this side's pawns. */
    function Forward(): int {
      if White? then 1 else -1
    }

    function PawnRank(): int {
      if White? then 1 else 6
    }

    function LastRank(): int {
      if White? then 7 else 0
    }
  }

  datatype Kind = Pawn | Knight | Bishop | Rook | Queen | King

  datatype Cell = Empty | Man(color: Color, kind: Kind)

  type Cells = b: seq<Cell> | |b| == 64 witness seq(64, i => Empty)

  predicate Held(b: Cells, s: Square, c: Color) {
    b[s].Man? && b[s].color == c
  }

  // ----- geometry of lines

  function Abs(x: int): int {
    if x < 0 then -x else x
  }

  function FileGap(s: Square, t: Square): int {
    FileOf(t) - FileOf(s)
  }

  function RankGap(s: Square, t: Square): int {
    RankOf(t) - RankOf(s)
  }

  /** How many king steps separate two squares. */
  function Span(s: Square, t: Square): (n: nat)
    ensures n == 0 <==> s == t
    ensures n < 8
  {
    var f, r := Abs(FileGap(s, t)), Abs(RankGap(s, t));
    if f < r then r else f
  }

  predicate Straight(s: Square, t: Square) {
    s != t && (FileGap(s, t) == 0 || RankGap(s, t) == 0)
  }

  predicate Diagonal(s: Square, t: Square) {
    s != t && Abs(FileGap(s, t)) == Abs(RankGap(s, t))
  }

  predicate Aligned(s: Square, t: Square) {
    Straight(s, t) || Diagonal(s, t)
  }

  /** The coordinate k steps from x in the direction of the sign of d. */
  function Step(x: int, d: int, k: int): int {
    if d == 0 then x else if d > 0 then x + k else x - k
  }

  /** The square k king steps from s on the line towards t. */
  function Toward(s: Square, t: Square, k: nat): Square
    requires Aligned(s, t) && k <= Span(s, t)
  {
    At(Step(FileOf(s), FileGap(s, t), k), Step(RankOf(s), RankGap(s, t), k))
  }

  /** Every square strictly between s and t is empty. */
  predicate Open(b: Cells, s: Square, t: Square)
    requires Aligned(s, t)
  {
    forall k :: 1 <= k < Span(s, t) ==> b[Toward(s, t, k)] == Empty
  }

  /** A line is the same line read from its other end. */
  lemma OpenSymmetric(b: Cells, s: Square, t: Square)
    requires Aligned(s, t)
    ensures Aligned(t, s) && Span(t, s) == Span(s, t)
    ensures Open(b, s, t) <==> Open(b, t, s)
  {
    forall k: nat | k <= Span(s, t)
      ensures Toward(t, s, k) == Toward(s, t, Span(s, t) - k)
    {
    }
    if Open(b, s, t) {
      forall k | 1 <= k < Span(t, s)
        ensures b[Toward(t, s, k)] == Empty
      {
        assert b[Toward(s, t, Span(s, t) - k)] == Empty;
      }
    }
    if Open(b, t, s) {
      forall k | 1 <= k < Span(s, t)
        ensures b[Toward(s, t, k)] == Empty
      {
        assert b[Toward(t, s, Span(s, t) - k)] == Empty;
      }
    }
  }

  /** The man on s attacks or defends t. */
  predicate Strikes(b: Cells, s: Square, t: Square)
    requires b[s].Man?
  {
    var f, r := Abs(FileGap(s, t)), Abs(RankGap(s, t));
    match b[s].kind
    case Pawn => f == 1 && RankGap(s, t) == b[s].color.Forward()
    case Knight => (f == 1 && r == 2) || (f == 2 && r == 1)
    case King => s != t && f <= 1 && r <= 1
    case Rook => Straight(s, t) && Open(b, s, t)
    case Bishop => Diagonal(s, t) && Open(b, s, t)
    case Queen => Aligned(s, t) && Open(b, s, t)
  }

  /** Some man of this colour strikes t. */
  predicate AttackedBy(b: Cells, t: Square, side: Color) {
    exists s: Square :: Held(b, s, side) && Strikes(b, s, t)
  }

  // ----- kings

  /** `board.index(king)`, if any: the first king of that colour at or after s. */
  function KingFrom(b: Cells, c: Color, s: nat): (k: Option<Square>)
    requires s <= 64
    ensures k.Some? ==> s <= k.value && b[k.value] == Man(c, King)
                        && forall j: Square :: s <= j < k.value ==> b[j] != Man(c, King)
    ensures k.None? ==> forall j: Square :: s <= j ==> b[j] != Man(c, King)
    decreases 64 - s
  {
    if s == 64 then None
    else if b[s] == Man(c, King) then Some(s)
    else KingFrom(b, c, s + 1)
  }

  function KingSquare(b: Cells, c: Color): (k: Option<Square>)
    ensures k.Some? ==> b[k.value] == Man(c, King)
  {
    KingFrom(b, c, 0)
  }

  ghost predicate OneKing(b: Cells, c: Color) {
    exists k: Square :: b[k] == Man(c, King) && forall j: Square :: b[j] == Man(c, King) ==> j == k
  }

  lemma OnlyKing(b: Cells, c: Color, k: Square)
    requires OneKing(b, c) && b[k] == Man(c, King)
    ensures KingSquare(b, c) == Some(k)
  {
  }

  /** `in_check` when the side has a king. */
  predicate InCheck(b: Cells, c: Color) {
    KingSquare(b, c).Some? && AttackedBy(b, KingSquare(b, c).value, c.Other())
  }
}
