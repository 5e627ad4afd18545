/** The decoder as it runs: one shared mutable cursor over a graph of lines, recursion at every push. */
module DecoderClass {
  import opened Base
  import Text
  import opened Squares
  import opened Position
  import opened Fen
  import opened Rules
  import opened Notation
  import opened Timeline
  import opened BoardClass
  import opened Decoder
  import opened DecodedTrees

  const MAX_TOKENS := 500_000

  /** A MoveNode: its variations are references to lines, given by their index in creation order. */
  datatype Slot = Slot(san: string, number: string, variations: seq<nat>)

  /** All VariationLine objects created so far; line 0 is the root. */
  type Graph = seq<seq<Slot>>

  /** The cursor's line, offset in it, and owner move, if the line is a variation. */
  datatype Cursor = Cursor(line: nat, offset: nat, owner: Option<(nat, nat)>)

  function ModeOf(c: Cursor): Mode {
    if c.offset > 0 then Inside else if c.owner.Some? then Start else Root
  }

  // ----- the tree a graph holds

  /** Variations are created after the line that holds their owner. */
  predicate Linked(g: Graph) {
    forall l, k, i :: 0 <= l < |g| && 0 <= k < |g[l]| && 0 <= i < |g[l][k].variations| ==>
        l < g[l][k].variations[i] < |g|
  }

  predicate Beyond(l: nat, vs: seq<nat>, g: Graph) {
    forall i :: 0 <= i < |vs| ==> l < vs[i] < |g|
  }

  ghost function LineFrom(g: Graph, l: nat, k: nat): seq<Node>
    requires Linked(g) && l < |g| && k <= |g[l]|
    decreases |g| - l, 1, |g[l]| - k
  {
    if k == |g[l]| then []
    else
      assert Beyond(l, g[l][k].variations, g);
      [Node(g[l][k].san, g[l][k].number, Trees(g, l, g[l][k].variations))] + LineFrom(g, l, k + 1)
  }

  ghost function Trees(g: Graph, l: nat, vs: seq<nat>): (ts: seq<Variation>)
    requires Linked(g) && l < |g| && Beyond(l, vs, g)
    ensures |ts| == |vs|
    decreases |g| - l, 0, |vs|
  {
    if vs == [] then []
    else
      assert Beyond(l, vs[1..], g);
      [Variation(LineFrom(g, vs[0], 0))] + Trees(g, l, vs[1..])
  }

  /** From index lo on, g and h hold the same lines (h may hold more). */
  predicate Agree(g: Graph, h: Graph, lo: nat) {
    |g| <= |h| && forall i :: lo <= i < |g| ==> g[i] == h[i]
  }

  lemma {:induction false} LineKept(g: Graph, h: Graph, lo: nat, l: nat, k: nat)
    requires Linked(g) && Linked(h) && Agree(g, h, lo) && lo <= l < |g| && k <= |g[l]|
    ensures LineFrom(g, l, k) == LineFrom(h, l, k)
    decreases |g| - l, 1, |g[l]| - k
  {
    if k < |g[l]| {
      TreesKept(g, h, lo, l, g[l][k].variations);
      LineKept(g, h, lo, l, k + 1);
    }
  }

  lemma {:induction false} TreesKept(g: Graph, h: Graph, lo: nat, l: nat, vs: seq<nat>)
    requires Linked(g) && Linked(h) && Agree(g, h, lo) && l < |g| && Beyond(l, vs, g)
    requires forall i :: 0 <= i < |vs| ==> lo <= vs[i]
    ensures Beyond(l, vs, h) && Trees(g, l, vs) == Trees(h, l, vs)
    decreases |g| - l, 0, |vs|
  {
    if vs != [] {
      LineKept(g, h, lo, vs[0], 0);
      TreesKept(g, h, lo, l, vs[1..]);
    }
  }

  lemma BeyondConcat(l: nat, a: seq<nat>, b: seq<nat>, g: Graph)
    requires Beyond(l, a, g) && Beyond(l, b, g)
    ensures Beyond(l, a + b, g) && (a != [] ==> l < a[0] < |g| && Beyond(l, a[1..], g))
  {
  }

  lemma {:induction false} TreesConcat(g: Graph, l: nat, a: seq<nat>, b: seq<nat>)
    requires Linked(g) && l < |g| && Beyond(l, a, g) && Beyond(l, b, g)
    ensures Beyond(l, a + b, g) && Trees(g, l, a + b) == Trees(g, l, a) + Trees(g, l, b)
  {
    BeyondConcat(l, a, b, g);
    hide LineFrom, Linked, Beyond;
    if a == [] {
      assert a + b == b;
    } else {
      assert (a + b)[1..] == a[1..] + b;
      TreesConcat(g, l, a[1..], b);
    }
  }

  // ----- what one run does to the graph

  predicate Positioned(g: Graph, c: Cursor) {
    && Linked(g) && c.line < |g| && c.offset == |g[c.line]|
    && (c.owner.Some? ==> c.owner.value.0 < c.line && c.owner.value.1 < |g[c.owner.value.0]|)
  }

  /** The variations the owner gained between g and h. */
  function Gained(g: Graph, h: Graph, o: (nat, nat)): seq<nat>
    requires o.0 < |g| && o.1 < |g[o.0]| && o.0 < |h| && o.1 < |h[o.0]|
    requires |g[o.0][o.1].variations| <= |h[o.0][o.1].variations|
  {
    h[o.0][o.1].variations[|g[o.0][o.1].variations|..]
  }

  /** The owner's line changes only by variations added at the end of the owner's list. */
  predicate OwnerGrew(g: Graph, h: Graph, o: (nat, nat)) {
    && o.0 < |g| <= |h| && o.1 < |g[o.0]| && |h[o.0]| == |g[o.0]|
    && (forall j :: 0 <= j < |g[o.0]| && j != o.1 ==> h[o.0][j] == g[o.0][j])
    && g[o.0][o.1].variations <= h[o.0][o.1].variations
    && h[o.0][o.1] == g[o.0][o.1].(variations := h[o.0][o.1].variations)
    && (forall i :: 0 <= i < |Gained(g, h, o)| ==> |g| <= Gained(g, h, o)[i])
  }

  /** Moves are appended to the cursor's line; their variations are new lines. */
  predicate LineGrew(g: Graph, h: Graph, l: nat) {
    && l < |g| <= |h| && g[l] <= h[l]
    && forall k, i :: |g[l]| <= k < |h[l]| && 0 <= i < |h[l][k].variations| ==> |g| <= h[l][k].variations[i]
  }

  /** h is g after a run from cursor c that added exactly what segment s says, and touched nothing else. */
  ghost predicate Grew(g: Graph, h: Graph, c: Cursor, s: Segment) {
    && Positioned(g, c) && Linked(h) && |g| <= |h|
    && (forall i :: 0 <= i < |g| && i != c.line && (c.owner.None? || i != c.owner.value.0) ==> h[i] == g[i])
    && LineGrew(g, h, c.line)
    && LineFrom(h, c.line, c.offset) == s.moves
    && (if c.owner.None? then s.siblings == []
        else OwnerGrew(g, h, c.owner.value)
             && Beyond(c.owner.value.0, Gained(g, h, c.owner.value), h)
             && Trees(h, c.owner.value.0, Gained(g, h, c.owner.value)) == s.siblings)
  }

  lemma NothingGrew(g: Graph, c: Cursor, rest: seq<Token>)
    requires Positioned(g, c)
    ensures Grew(g, g, c, Segment([], [], rest))
  {
  }

  function WithMove(g: Graph, c: Cursor, san: string, number: string): Graph
    requires c.line < |g|
  {
    g[c.line := g[c.line] + [Slot(san, number, [])]]
  }

  lemma PlayGrew(g: Graph, h: Graph, c: Cursor, san: string, number: string, s: Segment)
    requires Positioned(g, c) && Grew(WithMove(g, c, san, number), h, c.(offset := c.offset + 1), s)
    requires s.siblings == []
    ensures Grew(g, h, c, Segment([Node(san, number, [])] + s.moves, [], s.rest))
  {
    var g1 := WithMove(g, c, san, number);
    assert g1[c.line][c.offset] == Slot(san, number, []);
    assert h[c.line][c.offset] == Slot(san, number, []);
    if c.owner.Some? {
      assert Gained(g, h, c.owner.value) == Gained(g1, h, c.owner.value);
    }
  }

  /** The owner of the variation that follows a continuation. */
  function BranchOwner(c: Cursor): (nat, nat) {
    if c.owner.Some? && c.offset == 0 then c.owner.value else (c.line, c.offset)
  }

  /** A new empty line, referenced last by the owner. */
  function WithBranch(g: Graph, o: (nat, nat)): Graph
    requires o.0 < |g| && o.1 < |g[o.0]|
  {
    g[o.0 := g[o.0][o.1 := g[o.0][o.1].(variations := g[o.0][o.1].variations + [|g|])]] + [[]]
  }

  lemma BranchedLinked(g: Graph, o: (nat, nat))
    requires Linked(g) && o.0 < |g| && o.1 < |g[o.0]|
    ensures Linked(WithBranch(g, o))
  {
    var h: Graph := WithBranch(g, o);
    forall l: int, k: int, i: int | 0 <= l < |h| && 0 <= k < |h[l]| && 0 <= i < |h[l][k].variations|
      ensures l < h[l][k].variations[i] < |h|
    {
      if l < |g| && i < |g[l][k].variations| {
        assert h[l][k].variations[i] == g[l][k].variations[i];
      }
    }
  }

  /** What the second run (the alternative) leaves of a line whose move o owns it. */
  lemma OwnerSlot(g1: Graph, h: Graph, o: (nat, nat), alt: Segment)
    requires Linked(g1) && o.0 < |g1| && o.1 < |g1[o.0]|
    requires Grew(WithBranch(g1, o), h, Cursor(|g1|, 0, Some(o)), alt)
    ensures |g1| < |h| && |h[o.0]| == |g1[o.0]|
    ensures forall j :: 0 <= j < |g1[o.0]| && j != o.1 ==> h[o.0][j] == g1[o.0][j]
    ensures forall i :: 0 <= i < |g1| && i != o.0 ==> h[i] == g1[i]
    ensures var vs := Gained(WithBranch(g1, o), h, o);
      && h[o.0][o.1] == g1[o.0][o.1].(variations := g1[o.0][o.1].variations + [|g1|] + vs)
      && (forall i :: 0 <= i < |vs| ==> |g1| < vs[i] < |h|)
      && Beyond(o.0, [|g1|] + vs, h)
      && Trees(h, o.0, [|g1|] + vs) == [Variation(alt.moves)] + alt.siblings
  {
    var g2 := WithBranch(g1, o);
    var vs := Gained(g2, h, o);
    assert g2[o.0][o.1].variations == g1[o.0][o.1].variations + [|g1|];
    assert ([|g1|] + vs)[1..] == vs;
    assert g2[|g1|] == [];
  }

  /** After the alternative the cursor's line denotes the continuation with the new variations on its first move. */
  lemma InsideLine(g: Graph, g1: Graph, h: Graph, l: nat, k: nat, inner: Segment, alt: Segment, vs: seq<nat>)
    requires Linked(g1) && Linked(h) && |g1| < |h| && l < |g| <= |g1| && k < |g1[l]| == |h[l]|
    requires LineFrom(g1, l, k) == inner.moves && inner.moves != []
    requires forall j, i :: k <= j < |g1[l]| && 0 <= i < |g1[l][j].variations| ==> |g| <= g1[l][j].variations[i]
    requires forall j :: 0 <= j < |g1[l]| && j != k ==> h[l][j] == g1[l][j]
    requires forall i :: 0 <= i < |g1| && i != l ==> h[i] == g1[i]
    requires h[l][k] == g1[l][k].(variations := g1[l][k].variations + [|g1|] + vs)
    requires Beyond(l, [|g1|] + vs, h) && Trees(h, l, [|g1|] + vs) == [Variation(alt.moves)] + alt.siblings
    ensures LineFrom(h, l, k) == [Grown(inner.moves[0], [Variation(alt.moves)] + alt.siblings)] + inner.moves[1..]
  {
    var old1 := g1[l][k].variations;
    assert Agree(g1, h, |g|);
    TreesKept(g1, h, |g|, l, old1);
    TreesConcat(h, l, old1, [|g1|] + vs);
    assert old1 + [|g1|] + vs == old1 + ([|g1|] + vs);
    RestKept(g1, h, l, k + 1, |g|);
  }

  lemma PushGrewInside(g: Graph, g1: Graph, h: Graph, c: Cursor, inner: Segment, alt: Segment)
    requires Grew(g, g1, c, inner) && inner.moves != [] && inner.siblings == [] && ModeOf(c) != Start
    requires Grew(WithBranch(g1, (c.line, c.offset)), h, Cursor(|g1|, 0, Some((c.line, c.offset))), alt)
    ensures Grew(g, h, c, Joined(ModeOf(c), inner, alt))
  {
    var o := (c.line, c.offset);
    var vs := Gained(WithBranch(g1, o), h, o);
    OwnerSlot(g1, h, o, alt);
    OwnerUntouched(g, g1, h, c, inner);
    LineGrewTwice(g, g1, h, c, vs);
    InsideLine(g, g1, h, c.line, c.offset, inner, alt, vs);
    hide LineFrom, WithBranch, LineGrew;
    if c.owner.Some? {
      assert Trees(h, c.owner.value.0, []) == [];
    }
  }

  /** A continuation that gained no siblings left the cursor's owner alone. */
  lemma OwnerUntouched(g: Graph, g1: Graph, h: Graph, c: Cursor, inner: Segment)
    requires Grew(g, g1, c, inner) && inner.siblings == [] && Linked(h)
    requires |g1| <= |h| && forall i :: 0 <= i < |g1| && i != c.line ==> h[i] == g1[i]
    ensures c.owner.Some? ==> OwnerGrew(g, h, c.owner.value) && Gained(g, h, c.owner.value) == []
  {
    if c.owner.Some? {
      var o := c.owner.value;
      assert Gained(g, g1, o) == [];
      assert h[o.0] == g1[o.0];
    }
  }

  /** The cursor's line after the alternative: same moves, one more batch of variations on the move at its offset. */
  lemma LineGrewTwice(g: Graph, g1: Graph, h: Graph, c: Cursor, vs: seq<nat>)
    requires Positioned(g, c) && LineGrew(g, g1, c.line) && |g1| < |h| && c.offset < |g1[c.line]| == |h[c.line]|
    requires forall j :: 0 <= j < |g1[c.line]| && j != c.offset ==> h[c.line][j] == g1[c.line][j]
    requires h[c.line][c.offset].variations == g1[c.line][c.offset].variations + [|g1|] + vs
    requires forall i :: 0 <= i < |vs| ==> |g1| < vs[i]
    ensures LineGrew(g, h, c.line)
  {
    var l := c.line;
    forall k: int, i: int | |g[l]| <= k < |h[l]| && 0 <= i < |h[l][k].variations|
      ensures |g| <= h[l][k].variations[i]
    {
      if k == c.offset {
        var old1 := g1[l][k].variations;
        assert h[l][k].variations[i] ==
            if i < |old1| then old1[i] else if i == |old1| then |g1| else vs[i - |old1| - 1];
      }
    }
  }

  /** Moves of a line that neither changed nor refer to changed lines denote the same nodes. */
  lemma {:induction false} RestKept(g: Graph, h: Graph, l: nat, k: nat, lo: nat)
    requires Linked(g) && Linked(h) && Agree(g, h, lo) && l < |g| && |h[l]| == |g[l]| && k <= |g[l]|
    requires forall j :: k <= j < |g[l]| ==> h[l][j] == g[l][j]
    requires forall j, i :: k <= j < |g[l]| && 0 <= i < |g[l][j].variations| ==> lo <= g[l][j].variations[i]
    ensures LineFrom(h, l, k) == LineFrom(g, l, k)
    decreases |g[l]| - k
  {
    if k < |g[l]| {
      TreesKept(g, h, lo, l, g[l][k].variations);
      RestKept(g, h, l, k + 1, lo);
    }
  }

  lemma OwnerGrewTwice(g: Graph, g1: Graph, h: Graph, o: (nat, nat), vs: seq<nat>)
    requires OwnerGrew(g, g1, o) && |g1| < |h|
    requires |h[o.0]| == |g1[o.0]| && forall j :: 0 <= j < |g1[o.0]| && j != o.1 ==> h[o.0][j] == g1[o.0][j]
    requires h[o.0][o.1] == g1[o.0][o.1].(variations := g1[o.0][o.1].variations + [|g1|] + vs)
    requires forall i :: 0 <= i < |vs| ==> |g1| < vs[i]
    ensures o.0 < |g| <= |g1| && OwnerGrew(g, h, o) && Gained(g, h, o) == Gained(g, g1, o) + ([|g1|] + vs)
    ensures forall i :: 0 <= i < |Gained(g, g1, o)| ==> |g| <= Gained(g, g1, o)[i]
  {
    assert Gained(g, h, o) == Gained(g, g1, o) + ([|g1|] + vs);
  }

  /** Variations created since g still denote the same trees. */
  lemma NewTreesKept(g: Graph, g1: Graph, h: Graph, l: nat, vs: seq<nat>)
    requires Linked(g1) && Linked(h) && l < |g| <= |g1| <= |h| && Beyond(l, vs, g1)
    requires forall i :: 0 <= i < |g1| && i != l ==> h[i] == g1[i]
    requires forall i :: 0 <= i < |vs| ==> |g| <= vs[i]
    ensures Beyond(l, vs, h) && Trees(h, l, vs) == Trees(g1, l, vs)
  {
    TreesKept(g1, h, |g|, l, vs);
  }

  lemma MoreTrees(g: Graph, g1: Graph, h: Graph, l: nat, first: seq<nat>, more: seq<nat>, a: seq<Variation>,
                  b: seq<Variation>)
    requires Linked(g1) && Linked(h) && l < |g| <= |g1| <= |h| && Beyond(l, first, g1) && Beyond(l, more, h)
    requires forall i :: 0 <= i < |g1| && i != l ==> h[i] == g1[i]
    requires forall i :: 0 <= i < |first| ==> |g| <= first[i]
    requires Trees(g1, l, first) == a && Trees(h, l, more) == b
    ensures Beyond(l, first + more, h) && Trees(h, l, first + more) == a + b
  {
    NewTreesKept(g, g1, h, l, first);
    TreesConcat(h, l, first, more);
  }

  /** After the alternative the owner's new variations are the continuation's siblings, the alternative and its
      siblings. */
  lemma StartSiblings(g: Graph, g1: Graph, h: Graph, o: (nat, nat), inner: Segment, alt: Segment, vs: seq<nat>)
    requires Linked(g1) && Linked(h) && |g1| < |h| && OwnerGrew(g, g1, o)
    requires Beyond(o.0, Gained(g, g1, o), g1) && Trees(g1, o.0, Gained(g, g1, o)) == inner.siblings
    requires forall i :: 0 <= i < |g1| && i != o.0 ==> h[i] == g1[i]
    requires |h[o.0]| == |g1[o.0]| && forall j :: 0 <= j < |g1[o.0]| && j != o.1 ==> h[o.0][j] == g1[o.0][j]
    requires h[o.0][o.1] == g1[o.0][o.1].(variations := g1[o.0][o.1].variations + [|g1|] + vs)
    requires forall i :: 0 <= i < |vs| ==> |g1| < vs[i]
    requires Beyond(o.0, [|g1|] + vs, h) && Trees(h, o.0, [|g1|] + vs) == [Variation(alt.moves)] + alt.siblings
    ensures OwnerGrew(g, h, o) && Beyond(o.0, Gained(g, h, o), h)
    ensures Trees(h, o.0, Gained(g, h, o)) == inner.siblings + [Variation(alt.moves)] + alt.siblings
  {
    hide Linked, LineFrom, Trees, Beyond;
    OwnerGrewTwice(g, g1, h, o, vs);
    MoreTrees(g, g1, h, o.0, Gained(g, g1, o), [|g1|] + vs, inner.siblings, [Variation(alt.moves)] + alt.siblings);
    assert inner.siblings + [Variation(alt.moves)] + alt.siblings ==
        inner.siblings + ([Variation(alt.moves)] + alt.siblings);
  }

  lemma PushGrewStart(g: Graph, g1: Graph, h: Graph, c: Cursor, inner: Segment, alt: Segment)
    requires Grew(g, g1, c, inner) && inner.moves != [] && ModeOf(c) == Start
    requires c.owner.value.0 < |g1| && c.owner.value.1 < |g1[c.owner.value.0]|
    requires Grew(WithBranch(g1, c.owner.value), h, Cursor(|g1|, 0, Some(c.owner.value)), alt)
    ensures Grew(g, h, c, Joined(Start, inner, alt))
  {
    var o := c.owner.value;
    var vs := Gained(WithBranch(g1, o), h, o);
    OwnerSlot(g1, h, o, alt);
    StartSiblings(g, g1, h, o, inner, alt, vs);
    RestKept(g1, h, c.line, c.offset, |g|);
    hide LineFrom, Trees, WithBranch, OwnerGrew;
  }

  // ----- the loop of one run

  /** The root line has a move exactly when the cursor is past the start of it. */
  predicate Rooted(g: Graph, c: Cursor) {
    g != [] && (if c.owner.None? then c.line == 0 else g[0] != [])
  }

  predicate Ready(g: Graph, c: Cursor) {
    Positioned(g, c) && Rooted(g, c)
  }

  /** A point inside a run: if the rest of the run, from (g, c, ts, p), does what Decode says, so does the whole run,
      from (g0, c0, ts0, p0). */
  ghost predicate Carries(g0: Graph, c0: Cursor, ts0: seq<Token>, p0: Position,
                          g: Graph, c: Cursor, ts: seq<Token>, p: Position, nested: bool, depth: nat) {
    var d, d0 := Decode(ts, p, ModeOf(c), nested, depth), Decode(ts0, p0, ModeOf(c0), nested, depth);
    && (d.None? ==> d0.None?)
    && (d.Some? ==>
        && d0.Some? && d0.value.rest == d.value.rest
        && (forall h :: Grew(g, h, c, d.value) ==> Grew(g0, h, c0, d0.value)))
  }

  lemma CarriesStart(g: Graph, c: Cursor, ts: seq<Token>, p: Position, nested: bool, depth: nat)
    ensures Carries(g, c, ts, p, g, c, ts, p, nested, depth)
  {
  }

  lemma CarriesTogether(g0: Graph, c0: Cursor, ts0: seq<Token>, p0: Position,
                        g1: Graph, c1: Cursor, ts1: seq<Token>, p1: Position,
                        g2: Graph, c2: Cursor, ts2: seq<Token>, p2: Position, nested: bool, depth: nat)
    requires Carries(g0, c0, ts0, p0, g1, c1, ts1, p1, nested, depth)
    requires Carries(g1, c1, ts1, p1, g2, c2, ts2, p2, nested, depth)
    ensures Carries(g0, c0, ts0, p0, g2, c2, ts2, p2, nested, depth)
  {
    hide Decode, Grew;
  }

  lemma CarriesSkip(g: Graph, c: Cursor, ts: seq<Token>, p: Position, nested: bool, depth: nat)
    requires ts != [] && ts[0] == Skip
    ensures Carries(g, c, ts, p, g, c, ts[1..], p, nested, depth)
  {
    hide Grew, DecodeMove, Fits;
  }

  lemma CarriesPlay(g: Graph, c: Cursor, ts: seq<Token>, p: Position, nested: bool, depth: nat, t: MoveToken)
    requires Positioned(g, c) && ts != [] && ts[0] == Play(t) && DecodeMove(p, t).Some?
    ensures var (san, q) := DecodeMove(p, t).value;
      Carries(g, c, ts, p, WithMove(g, c, san, MoveNumber(p)), c.(offset := c.offset + 1), ts[1..], q, nested, depth)
  {
    hide Grew, DecodeMove, Fits, MoveNumber;
    var (san, q) := DecodeMove(p, t).value;
    var tail := Decode(ts[1..], q, Inside, nested, depth);
    if tail.Some? {
      DecodeShape(ts[1..], q, Inside, nested, depth);
      forall h | Grew(WithMove(g, c, san, MoveNumber(p)), h, c.(offset := c.offset + 1), tail.value)
        ensures Grew(g, h, c, Segment([Node(san, MoveNumber(p), [])] + tail.value.moves, [], tail.value.rest))
      {
        PlayGrew(g, h, c, san, MoveNumber(p), tail.value);
      }
    }
  }

  /** A push whose continuation has run: the cursor is put back, then moved to a new variation of the branch owner. */
  lemma CarriesPush(g: Graph, g1: Graph, c: Cursor, ts: seq<Token>, p: Position, nested: bool, depth: nat,
                    inner: Segment)
    requires Positioned(g, c) && ts != [] && ts[0] == Push && depth < MAX_DEPTH && Fits(p)
    requires Decode(ts[1..], p, ModeOf(c), true, depth + 1) == Some(inner) && inner.moves != []
    requires Grew(g, g1, c, inner)
    ensures var o := BranchOwner(c);
      && o.0 < |g1| && o.1 < |g1[o.0]|
      && Carries(g, c, ts, p, WithBranch(g1, o), Cursor(|g1|, 0, Some(o)), inner.rest, p, nested, depth)
  {
    DecodeShape(ts[1..], p, ModeOf(c), true, depth + 1);
    hide DecodeMove, Fits, MoveNumber, Joined;
    BranchOwnerPlaced(g, g1, c, inner);
    var o := BranchOwner(c);
    var alt := Decode(inner.rest, p, Start, nested, depth);
    hide Grew, WithBranch;
    if alt.Some? {
      forall h | Grew(WithBranch(g1, o), h, Cursor(|g1|, 0, Some(o)), alt.value)
        ensures Grew(g, h, c, Joined(ModeOf(c), inner, alt.value))
      {
        if ModeOf(c) == Start {
          PushGrewStart(g, g1, h, c, inner, alt.value);
        } else {
          PushGrewInside(g, g1, h, c, inner, alt.value);
        }
      }
    }
  }

  lemma BranchOwnerPlaced(g: Graph, g1: Graph, c: Cursor, inner: Segment)
    requires Positioned(g, c) && Grew(g, g1, c, inner) && inner.moves != []
    ensures var o := BranchOwner(c); o.0 < |g1| && o.1 < |g1[o.0]|
  {
  }

  lemma BranchedReady(g: Graph, g1: Graph, c: Cursor, inner: Segment)
    requires Ready(g, c) && Grew(g, g1, c, inner) && inner.moves != []
    ensures BranchOwner(c).0 < |g1| && BranchOwner(c).1 < |g1[BranchOwner(c).0]|
    ensures Ready(WithBranch(g1, BranchOwner(c)), Cursor(|g1|, 0, Some(BranchOwner(c))))
  {
    BranchOwnerPlaced(g, g1, c, inner);
    BranchedLinked(g1, BranchOwner(c));
  }

  lemma AppendedReady(g: Graph, c: Cursor, san: string, number: string)
    requires Ready(g, c)
    ensures Ready(WithMove(g, c, san, number), c.(offset := c.offset + 1))
  {
  }

  /** After a run the continuation added no move exactly when the line did not grow past the cursor. */
  lemma LineLength(g: Graph, h: Graph, c: Cursor, s: Segment)
    requires Grew(g, h, c, s)
    ensures c.line < |h| && (s.moves == [] <==> c.offset >= |h[c.line]|)
  {
  }

  /** Where a run ends without raising it has added nothing more. */
  lemma CarriesEnd(g0: Graph, c0: Cursor, ts0: seq<Token>, p0: Position, g: Graph, c: Cursor, ts: seq<Token>,
                   p: Position, nested: bool, depth: nat)
    requires Carries(g0, c0, ts0, p0, g, c, ts, p, nested, depth) && Positioned(g, c)
    requires Decode(ts, p, ModeOf(c), nested, depth).Some?
    requires ts == [] || ts[0] == Pop
    ensures Decode(ts0, p0, ModeOf(c0), nested, depth).Some?
    ensures var d0 := Decode(ts0, p0, ModeOf(c0), nested, depth).value;
      Grew(g0, g, c0, d0) && d0.rest == (if ts == [] then [] else ts[1..])
  {
    NothingGrew(g, c, Decode(ts, p, ModeOf(c), nested, depth).value.rest);
    hide Grew;
  }

  lemma CarriesNone(g0: Graph, c0: Cursor, ts0: seq<Token>, p0: Position, g: Graph, c: Cursor, ts: seq<Token>,
                    p: Position, nested: bool, depth: nat)
    requires Carries(g0, c0, ts0, p0, g, c, ts, p, nested, depth)
    requires Decode(ts, p, ModeOf(c), nested, depth).None?
    ensures Decode(ts0, p0, ModeOf(c0), nested, depth).None?
  {
    hide Decode, Grew;
  }

  // ----- when a token, or the end, makes the run stop or raise

  lemma StopsAtEnd(p: Position, mode: Mode, nested: bool, depth: nat)
    ensures Decode([], p, mode, nested, depth).None? <==> nested || mode == Start
  {
  }

  lemma StopsAtPop(ts: seq<Token>, p: Position, mode: Mode, nested: bool, depth: nat)
    requires ts != [] && ts[0] == Pop
    ensures Decode(ts, p, mode, nested, depth).Some? <==>
      mode != Start && (nested || (|ts| == 1 && mode == Inside))
  {
  }

  lemma RaisesAtUnknown(ts: seq<Token>, p: Position, mode: Mode, nested: bool, depth: nat)
    requires ts != [] && ts[0] == Unknown
    ensures Decode(ts, p, mode, nested, depth).None?
  {
  }

  lemma RaisesAtPlay(ts: seq<Token>, p: Position, mode: Mode, nested: bool, depth: nat, t: MoveToken)
    requires ts != [] && ts[0] == Play(t) && DecodeMove(p, t).None?
    ensures Decode(ts, p, mode, nested, depth).None?
  {
  }

  lemma RaisesAtPush(ts: seq<Token>, p: Position, mode: Mode, nested: bool, depth: nat)
    requires ts != [] && ts[0] == Push
    requires depth < MAX_DEPTH && Fits(p) ==>
      var inner := Decode(ts[1..], p, mode, true, depth + 1); inner.None? || inner.value.moves == []
    ensures Decode(ts, p, mode, nested, depth).None?
  {
  }

  class LineDecoder {
    const tokens: seq<Token>
    var lines: Graph
    var line: nat
    var board: Board
    var offset: nat
    var owner: Option<(nat, nat)>
    var budget: nat

    function Here(): Cursor
      reads this
    {
      Cursor(line, offset, owner)
    }

    constructor (tokens: seq<Token>, board: Board)
      ensures this.tokens == tokens && this.board == board && lines == [[]] && budget == 0
      ensures Here() == Cursor(0, 0, None)
    {
      this.tokens := tokens;
      this.board := board;
      lines := [[]];
      line := 0;
      offset := 0;
      owner := None;
      budget := 0;
    }

    /** The legal moves a token may stand for. */
    static method Candidates(ghost p: Position, legal: seq<Move>, t: MoveToken) returns (out: seq<Move>)
      requires Distinct(legal) && forall m :: m in legal <==> Legal(p, m)
      ensures Distinct(out) && forall m :: m in out <==> Picks(p, t, m)
    {
      out := [];
      for i := 0 to |legal|
        invariant Distinct(out)
        invariant forall m :: m in out <==> m in legal[..i] && Picks(p, t, m)
      {
        var m := legal[i];
        assert legal[..i + 1] == legal[..i] + [m];
        assert m in legal && m !in legal[..i];
        if m.from == t.from && m.to == t.to
           && (if t.promote == 1 then m.castle
               else PromotionOf(t.promote).Some? && m.promotion == PromotionOf(t.promote).value) {
          out := out + [m];
        }
      }
      assert legal[..|legal|] == legal;
    }

    /** The single candidate is what `_decode_move` pushes. */
    static lemma CandidateDecodes(p: Position, t: MoveToken, found: seq<Move>)
      requires Distinct(found) && forall m :: m in found <==> Picks(p, t, m)
      requires 0 <= t.from < 64 && 0 <= t.to < 64 && 0 <= t.promote < 256 && t.promote != 6
      ensures |found| <= 1
      ensures |found| == 0 ==> DecodeMove(p, t).None?
      ensures |found| == 1 ==>
        DecodeMove(p, t) == if San(p, found[0]).Ok? then Some((San(p, found[0]).value, Apply(p, found[0]))) else None
    {
      hide Picks, San, Apply;
      if |found| > 1 {
        assert found[0] in found && found[1] in found;
        PicksOne(p, t, found[0], found[1]);
      } else if |found| == 1 {
        assert found[0] in found;
        forall m | Picks(p, t, m)
          ensures m == found[0]
        {
          assert m in found;
        }
      } else {
        assert forall m :: !Picks(p, t, m);
      }
    }

    /** `_decode_move` on the cursor's board. */
    method PlayToken(t: MoveToken) returns (r: Option<string>)
      requires board.Canonical()
      modifies board
      ensures r.Some? <==> DecodeMove(old(board.Pos()), t).Some?
      ensures r.Some? ==> r.value == DecodeMove(old(board.Pos()), t).value.0
                          && board.Pos() == DecodeMove(old(board.Pos()), t).value.1 && board.Canonical()
    {
      if !(0 <= t.from < 64 && 0 <= t.to < 64 && 0 <= t.promote < 256) {
        return None;
      }
      if t.promote == 6 {
        var san := board.PushNull();
        return Some(san);
      }
      ghost var p := board.Pos();
      var legal := board.LegalMoves();
      if legal.ValueError? {
        NothingDecodes(p, t);
        return None;
      }
      var candidates := Candidates(p, legal.value, t);
      CandidateDecodes(p, t, candidates);
      if |candidates| != 1 {
        return None;
      }
      hide DecodeMove, San, Apply, Valid;
      var pushed := board.Push(candidates[0]);
      return if pushed.Ok? then Some(pushed.value) else None;
    }

    static lemma NothingDecodes(p: Position, t: MoveToken)
      requires !Fits(p) && t.promote != 6
      ensures DecodeMove(p, t).None?
    {
    }

    /** `_move_number`. */
    method Number() returns (s: string)
      ensures s == MoveNumber(board.Pos())
    {
      s := Text.Decimal(board.fullmove) + (if board.turn.White? then "." else "...");
    }

    /** A move token: one node at the end of the cursor's line. The "overwrite" error of the source cannot occur,
        because the offset always equals the length of the line. */
    method TakeMove(i: nat, t: MoveToken, ghost nested: bool, ghost depth: nat) returns (played: bool)
      requires i < |tokens| && tokens[i] == Play(t)
      requires Ready(lines, Here()) && board.Canonical()
      modifies `lines, `offset, board
      ensures !played ==> Decode(tokens[i..], old(board.Pos()), ModeOf(old(Here())), nested, depth).None?
      ensures played ==> Ready(lines, Here()) && board.Canonical()
      ensures played ==> Carries(old(lines), old(Here()), tokens[i..], old(board.Pos()),
                                 lines, Here(), tokens[i + 1..], board.Pos(), nested, depth)
    {
      hide Decode, DecodeMove, Grew, Fits, Positioned, Valid, Carries, WithMove;
      ghost var g, c, ts, p := lines, Here(), tokens[i..], board.Pos();
      assert ts[0] == tokens[i] && ts[1..] == tokens[i + 1..];
      ReadyModes(g, c);
      assert offset == |lines[line]|;
      var number := Number();
      var san := PlayToken(t);
      if san.None? {
        RaisesAtPlay(ts, p, ModeOf(c), nested, depth, t);
        return false;
      }
      CarriesPlay(g, c, ts, p, nested, depth, t);
      AppendedReady(g, c, san.value, number);
      lines := WithMove(lines, Here(), san.value, number);
      offset := offset + 1;
      return true;
    }

    /** A push token: the continuation runs on the shared cursor, the cursor is put back, and what follows
        goes to a new variation of the move at its offset, or of its owner at the start of a variation. */
    method Continue(i: nat, nested: bool, depth: nat) returns (r: Option<nat>)
      requires i < |tokens| <= MAX_TOKENS && tokens[i] == Push && budget == i + 1 && depth <= MAX_DEPTH
      requires Ready(lines, Here()) && board.Canonical()
      modifies this, board
      ensures r.None? ==> Decode(tokens[i..], old(board.Pos()), ModeOf(old(Here())), nested, depth).None?
      ensures r.Some? ==>
        && Ready(lines, Here()) && board.Canonical() && fresh(board)
        && i < r.value <= |tokens| && budget == r.value
        && Carries(old(lines), old(Here()), tokens[i..], old(board.Pos()),
                   lines, Here(), tokens[r.value..], board.Pos(), nested, depth)
      decreases |tokens| - i, 0
    {
      hide Decode, DecodeMove, Grew, Fits, Positioned, Valid, Carries, WithBranch;
      ghost var g, c, ts, p := lines, Here(), tokens[i..], board.Pos();
      assert ts[0] == tokens[i] && ts[1..] == tokens[i + 1..];
      if depth >= MAX_DEPTH {
        RaisesAtPush(ts, p, ModeOf(c), nested, depth);
        return None;
      }
      var saved := Here();
      var copy := board.Clone();
      if copy.ValueError? {
        RaisesAtPush(ts, p, ModeOf(c), nested, depth);
        return None;
      }
      r := DecodeLine(i + 1, true, depth + 1);
      if r.None? {
        RaisesAtPush(ts, p, ModeOf(c), nested, depth);
        return None;
      }
      ghost var inner := Decode(ts[1..], p, ModeOf(c), true, depth + 1).value;
      line, offset, owner := saved.line, saved.offset, saved.owner;
      board := copy.value;
      LineLength(g, lines, c, inner);
      if offset >= |lines[line]| {
        RaisesAtPush(ts, p, ModeOf(c), nested, depth);
        return None;
      }
      CarriesPush(g, lines, c, ts, p, nested, depth, inner);
      BranchedReady(g, lines, c, inner);
      var main := BranchOwner(saved);
      var variation := |lines|;
      lines := WithBranch(lines, main);
      line, offset, owner := variation, 0, Some(main);
    }

    /** `_decode_line`: a run from `index`; the answer is the index after it, None when it raises.
        The graph grows by exactly what Decode says of the remaining tokens. */
    method DecodeLine(index: nat, nested: bool, depth: nat) returns (r: Option<nat>)
      requires index <= |tokens| <= MAX_TOKENS && budget == index && depth <= MAX_DEPTH
      requires Ready(lines, Here()) && board.Canonical()
      modifies this, board
      ensures r.Some? <==> Decode(tokens[index..], old(board.Pos()), ModeOf(old(Here())), nested, depth).Some?
      ensures r.Some? ==>
        var s := Decode(tokens[index..], old(board.Pos()), ModeOf(old(Here())), nested, depth).value;
        && Grew(old(lines), lines, old(Here()), s)
        && index <= r.value <= |tokens| && s.rest == tokens[r.value..] && budget == r.value
      decreases |tokens| - index, 1
    {
      hide Decode, DecodeMove, Grew, Fits, Positioned, Valid, Carries, WithBranch, WithMove;
      ghost var g0, c0, ts0, p0 := lines, Here(), tokens[index..], board.Pos();
      var i := index;
      CarriesStart(g0, c0, ts0, p0, nested, depth);
      while i < |tokens|
        invariant index <= i <= |tokens| && budget == i
        invariant Ready(lines, Here()) && board.Canonical()
        invariant board == old(board) || fresh(board)
        invariant Carries(g0, c0, ts0, p0, lines, Here(), tokens[i..], board.Pos(), nested, depth)
        decreases |tokens| - i
      {
        ghost var g, c, ts, p := lines, Here(), tokens[i..], board.Pos();
        assert ts[0] == tokens[i] && ts[1..] == tokens[i + 1..];
        budget := budget + 1;
        assert budget <= MAX_TOKENS;
        match tokens[i]
        case Pop =>
          StopsAtPop(ts, p, ModeOf(c), nested, depth);
          ReadyModes(g, c);
          if (owner.Some? && lines[line] == []) || (!nested && !(i == |tokens| - 1 && lines[0] != [])) {
            CarriesNone(g0, c0, ts0, p0, g, c, ts, p, nested, depth);
            return None;
          }
          CarriesEnd(g0, c0, ts0, p0, g, c, ts, p, nested, depth);
          return Some(i + 1);
        case Skip =>
          CarriesSkip(g, c, ts, p, nested, depth);
          CarriesTogether(g0, c0, ts0, p0, g, c, ts, p, g, c, ts[1..], p, nested, depth);
          i := i + 1;
        case Push =>
          var after := Continue(i, nested, depth);
          if after.None? {
            CarriesNone(g0, c0, ts0, p0, g, c, ts, p, nested, depth);
            return None;
          }
          i := after.value;
          CarriesTogether(g0, c0, ts0, p0, g, c, ts, p, lines, Here(), tokens[i..], board.Pos(), nested, depth);
        case Play(t) =>
          var played := TakeMove(i, t, nested, depth);
          if !played {
            CarriesNone(g0, c0, ts0, p0, g, c, ts, p, nested, depth);
            return None;
          }
          i := i + 1;
          CarriesTogether(g0, c0, ts0, p0, g, c, ts, p, lines, Here(), tokens[i..], board.Pos(), nested, depth);
        case Unknown =>
          RaisesAtUnknown(ts, p, ModeOf(c), nested, depth);
          CarriesNone(g0, c0, ts0, p0, g, c, ts, p, nested, depth);
          return None;
      }
      assert tokens[i..] == [];
      StopsAtEnd(board.Pos(), ModeOf(Here()), nested, depth);
      ReadyModes(lines, Here());
      if nested || (owner.Some? && lines[line] == []) {
        CarriesNone(g0, c0, ts0, p0, lines, Here(), [], board.Pos(), nested, depth);
        return None;
      }
      CarriesEnd(g0, c0, ts0, p0, lines, Here(), [], board.Pos(), nested, depth);
      return Some(i);
    }

    /** What the run tests on the graph says which mode the cursor is in. */
    static lemma ReadyModes(g: Graph, c: Cursor)
      requires Ready(g, c)
      ensures c.line < |g| && c.offset == |g[c.line]| && g != []
      ensures ModeOf(c) == Start <==> c.owner.Some? && g[c.line] == []
      ensures ModeOf(c) == Inside && c.owner.None? ==> g[0] != []
      ensures ModeOf(c) != Start ==> (ModeOf(c) == Inside <==> g[0] != [])
    {
    }

    /** The call in `_decode_game`: on success the root line holds the game DecodeGame denotes, and every token was
        used. */
    method Run() returns (ok: bool)
      requires |tokens| <= MAX_TOKENS && lines == [[]] && Here() == Cursor(0, 0, None) && budget == 0
      requires board.Canonical()
      modifies this, board
      ensures ok <==> DecodeGame(tokens, old(board.Pos())).Some?
      ensures ok ==> Linked(lines) && lines != [] && LineFrom(lines, 0, 0) == DecodeGame(tokens, old(board.Pos())).value
      ensures ok ==> budget == |tokens|
    {
      hide Decode, Valid;
      assert tokens[0..] == tokens;
      ghost var p := board.Pos();
      var consumed := DecodeLine(0, false, 0);
      if consumed.None? {
        return false;
      }
      DecodeShape(tokens, p, Root, false, 0);
      assert consumed.value == |tokens|;
      return true;
    }
  }
}
