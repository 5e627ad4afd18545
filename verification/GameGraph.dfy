/** The check a game graph from outside must pass before it is used (acs/book_game_content.py), on any object graph:
    cyclic, sharing objects, or holding objects of other types. */
module GameGraph {
  import opened Base

  const MAX_NODES := 100_000
  const MAX_DEPTH := 128

  type Ref = nat

  /** A Python object: the canonical classes, built-in lists of objects or of exact texts, or something else. */
  datatype Object =
    | LineObject(moves: Ref, leading: Ref, trailing: Ref, result: Option<string>)
    | MoveObject(san: string, number: Option<string>, nags: Ref, before: Ref, after: Ref, variations: Ref)
    | CommentObject(text: string, style: string)
    | ListObject(items: seq<Ref>)
    | TextsObject(texts: seq<string>)
    | Foreign

  type Heap = map<Ref, Object>

  function Get(h: Heap, r: Ref): Object {
    if r in h then h[r] else Foreign
  }

  function Items(h: Heap, r: Ref): seq<Ref> {
    if Get(h, r).ListObject? then Get(h, r).items else []
  }

  predicate IsComments(h: Heap, r: Ref) {
    Get(h, r).ListObject? && forall i :: 0 <= i < |Items(h, r)| ==> Get(h, Items(h, r)[i]).CommentObject?
  }

  predicate IsNodes(h: Heap, r: Ref) {
    Get(h, r).ListObject? && |Items(h, r)| <= MAX_NODES
  }

  predicate IsLine(h: Heap, r: Ref) {
    var o := Get(h, r);
    o.LineObject? && IsNodes(h, o.moves) && IsComments(h, o.leading) && IsComments(h, o.trailing)
  }

  predicate IsMove(h: Heap, r: Ref) {
    var o := Get(h, r);
    o.MoveObject? && Get(h, o.nags).TextsObject? && IsComments(h, o.before) && IsComments(h, o.after)
      && IsNodes(h, o.variations)
  }

  /** What an object refers to within the tree: a line its moves, a move its variations. */
  function Kids(h: Heap, r: Ref): seq<Ref> {
    var o := Get(h, r);
    if o.LineObject? then Items(h, o.moves) else if o.MoveObject? then Items(h, o.variations) else []
  }

  /** Lines stand at even levels, moves at odd ones; the depth limit counts lines. */
  predicate Fine(h: Heap, r: Ref, level: nat) {
    if level % 2 == 0 then level / 2 <= MAX_DEPTH && IsLine(h, r) else IsMove(h, r)
  }

  // ----- reaching objects along paths

  /** The object a path of list positions leads to. */
  function Reach(h: Heap, r: Ref, path: seq<nat>): Option<Ref>
    decreases |path|
  {
    if path == [] then Some(r)
    else if path[0] < |Kids(h, r)| then Reach(h, Kids(h, r)[path[0]], path[1..])
    else None
  }

  /** Every object reached is of the right class, and no line lies too deep. */
  ghost predicate WellFormed(h: Heap, r: Ref, level: nat) {
    forall path :: Reach(h, r, path).Some? ==> Fine(h, Reach(h, r, path).value, level + |path|)
  }

  /** No object is reached along two paths: nothing is shared and nothing is cyclic. */
  ghost predicate IsTree(h: Heap, r: Ref) {
    forall p, q :: Reach(h, r, p).Some? && Reach(h, r, p) == Reach(h, r, q) ==> p == q
  }

  // ----- the order in which the check meets the objects

  /** The objects met from r, None when one of them is refused. */
  ghost function Visit(h: Heap, r: Ref, level: nat): Option<seq<Ref>>
    decreases 2 * MAX_DEPTH + 2 - level, 1, 0
  {
    if level > 2 * MAX_DEPTH + 1 || !Fine(h, r, level) then None else
    var below := VisitAll(h, Kids(h, r), level + 1);
    if below.None? then None else Some([r] + below.value)
  }

  ghost function VisitAll(h: Heap, rs: seq<Ref>, level: nat): Option<seq<Ref>>
    requires level <= 2 * MAX_DEPTH + 2
    decreases 2 * MAX_DEPTH + 2 - level, 2, |rs|
  {
    if rs == [] then Some([]) else
    var first := Visit(h, rs[0], level);
    var rest := VisitAll(h, rs[1..], level);
    if first.None? || rest.None? then None else Some(first.value + rest.value)
  }

  /** The part of a visit that one object contributes. */
  lemma {:induction false} VisitOne(h: Heap, rs: seq<Ref>, level: nat, i: nat)
    requires level <= 2 * MAX_DEPTH + 2 && VisitAll(h, rs, level).Some? && i < |rs|
    ensures Visit(h, rs[i], level).Some?
    ensures forall x :: x in Visit(h, rs[i], level).value ==> x in VisitAll(h, rs, level).value
    ensures Distinct(VisitAll(h, rs, level).value) ==> Distinct(Visit(h, rs[i], level).value)
    decreases |rs|
  {
    hide Fine, Kids;
    var first, rest := Visit(h, rs[0], level).value, VisitAll(h, rs[1..], level).value;
    DistinctParts(first, rest);
    if i > 0 {
      assert rs[i] == rs[1..][i - 1];
      VisitOne(h, rs[1..], level, i - 1);
    }
  }

  lemma DistinctParts<T>(a: seq<T>, b: seq<T>)
    ensures Distinct(a + b) <==> Distinct(a) && Distinct(b) && forall x :: x in a ==> x !in b
  {
    var c := a + b;
    if Distinct(c) {
      assert forall i :: 0 <= i < |a| ==> c[i] == a[i];
      assert forall i :: 0 <= i < |b| ==> c[|a| + i] == b[i];
    } else if Distinct(a) && Distinct(b) && forall x :: x in a ==> x !in b {
      DistinctConcat(a, b);
    }
  }

  /** Distinct siblings share no object. */
  lemma {:induction false} VisitsApart(h: Heap, rs: seq<Ref>, level: nat, i: nat, j: nat, x: Ref)
    requires level <= 2 * MAX_DEPTH + 2 && VisitAll(h, rs, level).Some? && Distinct(VisitAll(h, rs, level).value)
    requires i < j < |rs| && Visit(h, rs[i], level).Some? && Visit(h, rs[j], level).Some?
    requires x in Visit(h, rs[i], level).value
    ensures x !in Visit(h, rs[j], level).value
    decreases |rs|
  {
    hide Fine, Kids;
    DistinctParts(Visit(h, rs[0], level).value, VisitAll(h, rs[1..], level).value);
    assert rs[j] == rs[1..][j - 1];
    if i == 0 {
      VisitOne(h, rs[1..], level, j - 1);
    } else {
      assert rs[i] == rs[1..][i - 1];
      VisitsApart(h, rs[1..], level, i - 1, j - 1, x);
    }
  }

  lemma {:induction false} VisitAllMember(h: Heap, rs: seq<Ref>, level: nat, x: Ref)
    requires level <= 2 * MAX_DEPTH + 2 && VisitAll(h, rs, level).Some? && x in VisitAll(h, rs, level).value
    ensures exists i :: 0 <= i < |rs| && Visit(h, rs[i], level).Some? && x in Visit(h, rs[i], level).value
    decreases |rs|
  {
    hide Fine, Kids;
    if x !in Visit(h, rs[0], level).value {
      VisitAllMember(h, rs[1..], level, x);
      var i :| 0 <= i < |rs[1..]| && Visit(h, rs[1..][i], level).Some? && x in Visit(h, rs[1..][i], level).value;
      assert rs[i + 1] == rs[1..][i];
    }
  }

  /** Whatever a path reaches is visited, and is of the right class. */
  lemma {:induction false} ReachedIsVisited(h: Heap, r: Ref, level: nat, path: seq<nat>)
    requires Visit(h, r, level).Some? && Reach(h, r, path).Some?
    ensures Reach(h, r, path).value in Visit(h, r, level).value
    ensures Fine(h, Reach(h, r, path).value, level + |path|)
    decreases |path|
  {
    if path != [] {
      BelowVisited(h, r, level);
      hide Fine, Kids, Visit, Distinct;
      VisitOne(h, Kids(h, r), level + 1, path[0]);
      ReachedIsVisited(h, Kids(h, r)[path[0]], level + 1, path[1..]);
    }
  }

  lemma BelowVisited(h: Heap, r: Ref, level: nat)
    requires Visit(h, r, level).Some?
    ensures level <= 2 * MAX_DEPTH + 1 && VisitAll(h, Kids(h, r), level + 1).Some?
    ensures forall x :: x in VisitAll(h, Kids(h, r), level + 1).value ==> x in Visit(h, r, level).value
  {
  }

  /** Whatever is visited is reached. */
  lemma {:induction false} VisitedIsReached(h: Heap, r: Ref, level: nat, x: Ref)
    requires Visit(h, r, level).Some? && x in Visit(h, r, level).value
    ensures exists path :: Reach(h, r, path) == Some(x)
    decreases 2 * MAX_DEPTH + 2 - level
  {
    if x == r {
      assert Reach(h, r, []) == Some(x);
    } else {
      VisitAllMember(h, Kids(h, r), level + 1, x);
      var i :| 0 <= i < |Kids(h, r)| && Visit(h, Kids(h, r)[i], level + 1).Some?
        && x in Visit(h, Kids(h, r)[i], level + 1).value;
      VisitedIsReached(h, Kids(h, r)[i], level + 1, x);
      var path :| Reach(h, Kids(h, r)[i], path) == Some(x);
      StepDown(h, r, i, path);
    }
  }

  lemma StepDown(h: Heap, r: Ref, i: nat, path: seq<nat>)
    requires i < |Kids(h, r)|
    ensures Reach(h, r, [i] + path) == Reach(h, Kids(h, r)[i], path)
  {
    assert ([i] + path)[1..] == path;
  }

  /** A visit is refused only when some path reaches an object of the wrong class, or too deep. */
  lemma {:induction false} RefusedHasPath(h: Heap, r: Ref, level: nat) returns (path: seq<nat>)
    requires level <= 2 * MAX_DEPTH + 2 && Visit(h, r, level).None?
    ensures Reach(h, r, path).Some? && !Fine(h, Reach(h, r, path).value, level + |path|)
    decreases 2 * MAX_DEPTH + 2 - level, 1, 0
  {
    path := [];
    if level <= 2 * MAX_DEPTH + 1 && Fine(h, r, level) {
      var i, below := RefusedKid(h, Kids(h, r), level + 1);
      StepDown(h, r, i, below);
      path := [i] + below;
    }
  }

  lemma {:induction false} RefusedKid(h: Heap, rs: seq<Ref>, level: nat) returns (i: nat, path: seq<nat>)
    requires level <= 2 * MAX_DEPTH + 2 && VisitAll(h, rs, level).None?
    ensures i < |rs| && Reach(h, rs[i], path).Some? && !Fine(h, Reach(h, rs[i], path).value, level + |path|)
    decreases 2 * MAX_DEPTH + 2 - level, 2, |rs|
  {
    if Visit(h, rs[0], level).None? {
      i := 0;
      path := RefusedHasPath(h, rs[0], level);
    } else {
      i, path := RefusedKid(h, rs[1..], level);
      i := i + 1;
    }
  }

  /** The visit is defined exactly on the well-formed graphs. */
  lemma VisitDefined(h: Heap, r: Ref, level: nat)
    requires level <= 2 * MAX_DEPTH + 2
    ensures Visit(h, r, level).Some? <==> WellFormed(h, r, level)
  {
    if Visit(h, r, level).None? {
      var path := RefusedHasPath(h, r, level);
    } else {
      forall path | Reach(h, r, path).Some?
        ensures Fine(h, Reach(h, r, path).value, level + |path|)
      {
        ReachedIsVisited(h, r, level, path);
      }
    }
  }

  lemma KidsDistinct(h: Heap, r: Ref, level: nat, i: nat)
    requires Visit(h, r, level).Some? && Distinct(Visit(h, r, level).value) && i < |Kids(h, r)|
    ensures Visit(h, Kids(h, r)[i], level + 1).Some? && Distinct(Visit(h, Kids(h, r)[i], level + 1).value)
    ensures r !in Visit(h, Kids(h, r)[i], level + 1).value
  {
    DistinctParts([r], VisitAll(h, Kids(h, r), level + 1).value);
    VisitOne(h, Kids(h, r), level + 1, i);
  }

  lemma KidsApart(h: Heap, r: Ref, level: nat, i: nat, j: nat, x: Ref)
    requires Visit(h, r, level).Some? && Distinct(Visit(h, r, level).value)
    requires i < |Kids(h, r)| && j < |Kids(h, r)| && i != j
    requires Visit(h, Kids(h, r)[i], level + 1).Some? && x in Visit(h, Kids(h, r)[i], level + 1).value
    ensures Visit(h, Kids(h, r)[j], level + 1).Some? && x !in Visit(h, Kids(h, r)[j], level + 1).value
  {
    var kids := Kids(h, r);
    KidsDistinct(h, r, level, j);
    DistinctParts([r], VisitAll(h, kids, level + 1).value);
    if i < j {
      VisitsApart(h, kids, level + 1, i, j, x);
    } else if x in Visit(h, kids[j], level + 1).value {
      VisitsApart(h, kids, level + 1, j, i, x);
    }
  }

  /** A visit without repeats meets every object along one path only. */
  lemma {:induction false} DistinctIsTree(h: Heap, r: Ref, level: nat, p: seq<nat>, q: seq<nat>)
    requires Visit(h, r, level).Some? && Distinct(Visit(h, r, level).value)
    requires Reach(h, r, p).Some? && Reach(h, r, p) == Reach(h, r, q)
    ensures p == q
    decreases |p|
  {
    hide Visit, Fine, Kids, Distinct;
    if p != [] && q == [] {
      KidsDistinct(h, r, level, p[0]);
      ReachedIsVisited(h, Kids(h, r)[p[0]], level + 1, p[1..]);
    } else if p == [] && q != [] {
      KidsDistinct(h, r, level, q[0]);
      ReachedIsVisited(h, Kids(h, r)[q[0]], level + 1, q[1..]);
    } else if p != [] && q != [] {
      KidsDistinct(h, r, level, p[0]);
      ReachedIsVisited(h, Kids(h, r)[p[0]], level + 1, p[1..]);
      if p[0] == q[0] {
        DistinctIsTree(h, Kids(h, r)[p[0]], level + 1, p[1..], q[1..]);
        assert p == [p[0]] + p[1..] && q == [q[0]] + q[1..];
      } else {
        KidsApart(h, r, level, p[0], q[0], Reach(h, r, p).value);
        ReachedIsVisited(h, Kids(h, r)[q[0]], level + 1, q[1..]);
      }
    }
  }

  lemma TreeKids(h: Heap, r: Ref)
    requires IsTree(h, r)
    ensures forall i :: 0 <= i < |Kids(h, r)| ==> IsTree(h, Kids(h, r)[i])
    ensures KidsMeetApart(h, Kids(h, r))
  {
    hide IsTree, Kids;
    forall i | 0 <= i < |Kids(h, r)|
      ensures IsTree(h, Kids(h, r)[i])
    {
      KidIsTree(h, r, i);
    }
    forall i, j, p, q | 0 <= i < j < |Kids(h, r)| && Reach(h, Kids(h, r)[i], p).Some?
      ensures Reach(h, Kids(h, r)[i], p) != Reach(h, Kids(h, r)[j], q)
    {
      PathsPart(h, r, i, j, p, q);
    }
  }

  lemma PathsPart(h: Heap, r: Ref, i: nat, j: nat, p: seq<nat>, q: seq<nat>)
    requires IsTree(h, r) && i < j < |Kids(h, r)| && Reach(h, Kids(h, r)[i], p).Some?
    ensures Reach(h, Kids(h, r)[i], p) != Reach(h, Kids(h, r)[j], q)
  {
    StepDown(h, r, i, p);
    StepDown(h, r, j, q);
    assert ([i] + p)[0] != ([j] + q)[0];
  }

  /** No object is reached from two of these. */
  ghost predicate KidsMeetApart(h: Heap, rs: seq<Ref>) {
    forall i, j, p, q :: 0 <= i < j < |rs| && Reach(h, rs[i], p).Some? ==> Reach(h, rs[i], p) != Reach(h, rs[j], q)
  }

  lemma NeverBack(h: Heap, r: Ref, i: nat, p: seq<nat>)
    requires IsTree(h, r) && i < |Kids(h, r)|
    ensures Reach(h, Kids(h, r)[i], p) != Some(r)
  {
    StepDown(h, r, i, p);
    assert Reach(h, r, []) == Some(r);
    assert [i] + p != [];
  }

  lemma RootNotBelow(h: Heap, r: Ref, level: nat)
    requires Visit(h, r, level).Some? && IsTree(h, r)
    ensures r !in VisitAll(h, Kids(h, r), level + 1).value
  {
    var kids := Kids(h, r);
    hide Kids, Fine, IsTree, Reach;
    if r in VisitAll(h, kids, level + 1).value {
      VisitAllMember(h, kids, level + 1, r);
      var i :| 0 <= i < |kids| && Visit(h, kids[i], level + 1).Some? && r in Visit(h, kids[i], level + 1).value;
      VisitedIsReached(h, kids[i], level + 1, r);
      forall p
        ensures Reach(h, kids[i], p) != Some(r)
      {
        NeverBack(h, r, i, p);
      }
    }
  }

  /** And a tree is visited without repeats. */
  lemma {:induction false} TreeIsDistinct(h: Heap, r: Ref, level: nat)
    requires Visit(h, r, level).Some? && IsTree(h, r)
    ensures Distinct(Visit(h, r, level).value)
    decreases 2 * MAX_DEPTH + 2 - level, 1, 0
  {
    hide IsTree, Fine, Kids, KidsMeetApart, Distinct;
    TreeKids(h, r);
    SiblingsDistinct(h, Kids(h, r), level + 1);
    RootNotBelow(h, r, level);
    assert Distinct([r]) by {
      SingleDistinct(r);
    }
    DistinctParts([r], VisitAll(h, Kids(h, r), level + 1).value);
  }

  lemma SingleDistinct(r: Ref)
    ensures Distinct([r])
  {
  }

  lemma KidIsTree(h: Heap, r: Ref, i: nat)
    requires IsTree(h, r) && i < |Kids(h, r)|
    ensures IsTree(h, Kids(h, r)[i])
  {
    var kid := Kids(h, r)[i];
    forall p, q | Reach(h, kid, p).Some? && Reach(h, kid, p) == Reach(h, kid, q)
      ensures p == q
    {
      StepDown(h, r, i, p);
      StepDown(h, r, i, q);
      assert ([i] + p)[1..] == p && ([i] + q)[1..] == q;
    }
  }

  lemma {:induction false} SiblingsDistinct(h: Heap, rs: seq<Ref>, level: nat)
    requires level <= 2 * MAX_DEPTH + 2 && VisitAll(h, rs, level).Some?
    requires forall i :: 0 <= i < |rs| ==> IsTree(h, rs[i])
    requires KidsMeetApart(h, rs)
    ensures Distinct(VisitAll(h, rs, level).value)
    decreases 2 * MAX_DEPTH + 2 - level, 2, |rs|
  {
    if rs != [] {
      TreeIsDistinct(h, rs[0], level);
      SiblingsDistinct(h, rs[1..], level);
      var first, rest := Visit(h, rs[0], level).value, VisitAll(h, rs[1..], level).value;
      forall x | x in first
        ensures x !in rest
      {
        if x in rest {
          VisitedIsReached(h, rs[0], level, x);
          var p :| Reach(h, rs[0], p) == Some(x);
          VisitAllMember(h, rs[1..], level, x);
          var j :| 0 <= j < |rs[1..]| && Visit(h, rs[1..][j], level).Some? && x in Visit(h, rs[1..][j], level).value;
          VisitedIsReached(h, rs[j + 1], level, x);
        }
      }
      DistinctParts(first, rest);
    }
  }

  // ----- the check

  /** A visit that may follow the objects met before: no repeats, and within the node limit. */
  ghost predicate Passes(before: seq<Ref>, visit: Option<seq<Ref>>) {
    visit.Some? && Distinct(before + visit.value) && |before| + |visit.value| <= MAX_NODES
  }

  lemma {:induction false} VisitAllSnoc(h: Heap, rs: seq<Ref>, level: nat, i: nat)
    requires level <= 2 * MAX_DEPTH + 2 && i < |rs| && VisitAll(h, rs[..i], level).Some?
    ensures var done, next := VisitAll(h, rs[..i], level).value, Visit(h, rs[i], level);
      && (next.None? ==> VisitAll(h, rs, level).None?)
      && (next.Some? ==> VisitAll(h, rs[..i + 1], level) == Some(done + next.value))
    decreases i
  {
    hide Fine, Kids;
    if i == 0 {
      assert rs[..1][1..] == [] && rs[..0] == [];
      var next := Visit(h, rs[0], level);
      assert next.Some? ==> next.value + [] == [] + next.value;
    } else {
      assert rs[..i][0] == rs[0] && rs[..i][1..] == rs[1..][..i - 1];
      assert rs[..i + 1][0] == rs[0] && rs[..i + 1][1..] == rs[1..][..i];
      VisitAllSnoc(h, rs[1..], level, i - 1);
      var first, done := Visit(h, rs[0], level).value, VisitAll(h, rs[1..][..i - 1], level).value;
      var next := Visit(h, rs[i], level);
      assert next.Some? ==> first + (done + next.value) == first + done + next.value;
    }
  }

  lemma PrefixTogether(first: seq<Ref>, a: seq<Ref>, b: seq<Ref>)
    requires a <= b
    ensures first + a <= first + b
  {
  }

  /** The visit of the first objects of a list begins the visit of the list. */
  lemma {:induction false} VisitAllBegins(h: Heap, rs: seq<Ref>, level: nat, i: nat)
    requires level <= 2 * MAX_DEPTH + 2 && i <= |rs| && VisitAll(h, rs, level).Some?
    ensures VisitAll(h, rs[..i], level).Some? && VisitAll(h, rs[..i], level).value <= VisitAll(h, rs, level).value
    decreases i
  {
    hide Fine, Kids;
    if i > 0 {
      assert rs[..i][0] == rs[0] && rs[..i][1..] == rs[1..][..i - 1];
      VisitAllBegins(h, rs[1..], level, i - 1);
      PrefixTogether(Visit(h, rs[0], level).value, VisitAll(h, rs[1..][..i - 1], level).value,
                     VisitAll(h, rs[1..], level).value);
    }
  }

  lemma PrefixPasses(before: seq<Ref>, part: seq<Ref>, whole: seq<Ref>)
    requires part <= whole && Passes(before, Some(whole))
    ensures Passes(before, Some(part))
  {
    var a, b := before + part, before + whole;
    assert forall i :: 0 <= i < |a| ==> a[i] == b[i];
  }

  /** One more object of a list: refused, the list is; passed, the visit so far grows by its visit. */
  lemma NextPasses(h: Heap, before: seq<Ref>, rs: seq<Ref>, level: nat, i: nat)
    requires level <= 2 * MAX_DEPTH + 2 && i < |rs| && VisitAll(h, rs[..i], level).Some?
    ensures var order := before + VisitAll(h, rs[..i], level).value; var next := Visit(h, rs[i], level);
      && (!Passes(order, next) ==> !Passes(before, VisitAll(h, rs, level)))
      && (next.Some? ==>
            VisitAll(h, rs[..i + 1], level).Some?
            && before + VisitAll(h, rs[..i + 1], level).value == order + next.value)
  {
    var done, next := VisitAll(h, rs[..i], level).value, Visit(h, rs[i], level);
    VisitAllSnoc(h, rs, level, i);
    if next.Some? {
      assert before + (done + next.value) == before + done + next.value;
      if Passes(before, VisitAll(h, rs, level)) {
        VisitAllBegins(h, rs, level, i + 1);
        PrefixPasses(before, done + next.value, VisitAll(h, rs, level).value);
      }
    }
  }

  /** The object itself comes first in its visit. */
  lemma HeadPasses(h: Heap, before: seq<Ref>, r: Ref, level: nat)
    requires level <= 2 * MAX_DEPTH + 1 && Fine(h, r, level)
    ensures Passes(before, Visit(h, r, level)) <==> Passes(before + [r], VisitAll(h, Kids(h, r), level + 1))
    ensures Passes(before, Visit(h, r, level)) ==> Passes(before, Some([r]))
    ensures var below := VisitAll(h, Kids(h, r), level + 1);
      below.Some? ==> Visit(h, r, level).Some? && before + [r] + below.value == before + Visit(h, r, level).value
  {
    hide Fine, Kids;
    var below := VisitAll(h, Kids(h, r), level + 1);
    if below.Some? {
      assert before + [r] + below.value == before + ([r] + below.value);
      if Passes(before, Visit(h, r, level)) {
        PrefixPasses(before, [r], [r] + below.value);
      }
    }
  }

  /** An object already met, of the wrong class or too deep is refused whatever lies below it. */
  lemma Refused(h: Heap, before: seq<Ref>, r: Ref, level: nat)
    ensures !Fine(h, r, level) ==> !Passes(before, Visit(h, r, level))
    ensures !Passes(before, Some([r])) ==> !Passes(before, Visit(h, r, level))
    ensures r in before ==> !Passes(before, Some([r]))
  {
    if Passes(before, Visit(h, r, level)) {
      HeadPasses(h, before, r, level);
    }
    DistinctParts(before, [r]);
    assert r in [r];
  }

  /** Objects met without a repeat and within the limit have passed. */
  lemma AllPasses(h: Heap, before: seq<Ref>, rs: seq<Ref>, level: nat)
    requires level <= 2 * MAX_DEPTH + 2 && VisitAll(h, rs, level).Some?
    requires Distinct(before + VisitAll(h, rs, level).value) && |before + VisitAll(h, rs, level).value| <= MAX_NODES
    ensures Passes(before, VisitAll(h, rs, level))
  {
  }

  lemma NothingVisited(h: Heap, level: nat)
    requires level <= 2 * MAX_DEPTH + 2
    ensures VisitAll(h, [], level) == Some([])
  {
  }

  class GraphCheck {
    const heap: Heap
    var seen: set<Ref>
    var active: set<Ref>
    var count: nat
    ghost var order: seq<Ref>

    /** The counter and the sets say what has been met, in `order`. */
    ghost predicate Consistent()
      reads this
    {
      && count == |order| <= MAX_NODES && Distinct(order) && active <= seen
      && forall x :: x in seen <==> x in order
    }

    constructor (heap: Heap)
      ensures this.heap == heap && Consistent() && order == [] && active == {}
    {
      this.heap := heap;
      seen, active, count, order := {}, {}, 0, [];
    }

    /** `claim`. */
    method Claim(r: Ref) returns (ok: bool)
      requires Consistent()
      modifies this
      ensures ok <==> Passes(old(order), Some([r]))
      ensures ok ==> Consistent() && order == old(order) + [r] && active == old(active)
    {
      DistinctParts(order, [r]);
      if r in seen {
        return false;
      }
      seen := seen + {r};
      order := order + [r];
      count := count + 1;
      return count <= MAX_NODES;
    }

    /** `check_comments`. */
    method CheckComments(r: Ref) returns (ok: bool)
      ensures ok <==> IsComments(heap, r)
    {
      if !Get(heap, r).ListObject? {
        return false;
      }
      var items := Items(heap, r);
      for i := 0 to |items|
        invariant forall j :: 0 <= j < i ==> Get(heap, items[j]).CommentObject?
      {
        if !Get(heap, items[i]).CommentObject? {
          return false;
        }
      }
      return true;
    }

    /** `check_line`: passes exactly when the objects met from the line follow those met before without a repeat. */
    method CheckLine(line: Ref, depth: nat) returns (ok: bool)
      requires Consistent() && depth <= MAX_DEPTH + 1
      modifies this
      ensures ok <==> Passes(old(order), Visit(heap, line, 2 * depth))
      ensures ok ==> Visit(heap, line, 2 * depth).Some? && order == old(order) + Visit(heap, line, 2 * depth).value
      ensures ok ==> Consistent() && active == old(active)
      decreases MAX_DEPTH + 1 - depth, 1
    {
      hide Visit, VisitAll, Passes, Distinct;
      ghost var before, outside := order, active;
      Refused(heap, before, line, 2 * depth);
      var o := Get(heap, line);
      if !o.LineObject? || depth > MAX_DEPTH {
        return false;
      }
      if line in active {
        return false;
      }
      var claimed := Claim(line);
      if !claimed {
        return false;
      }
      active := active + {line};
      var leading := CheckComments(o.leading);
      var trailing := CheckComments(o.trailing);
      if !IsNodes(heap, o.moves) || !leading || !trailing {
        return false;
      }
      HeadPasses(heap, before, line, 2 * depth);
      var moves := Items(heap, o.moves);
      NothingVisited(heap, 2 * depth + 1);
      for i := 0 to |moves|
        invariant Consistent() && active == outside + {line}
        invariant VisitAll(heap, moves[..i], 2 * depth + 1).Some?
        invariant order == before + [line] + VisitAll(heap, moves[..i], 2 * depth + 1).value
      {
        NextPasses(heap, before + [line], moves, 2 * depth + 1, i);
        var fine := CheckMove(moves[i], depth);
        if !fine {
          return false;
        }
      }
      assert moves[..|moves|] == moves;
      AllPasses(heap, before + [line], moves, 2 * depth + 1);
      active := active - {line};
      assert active == outside;
      return true;
    }

    /** One move of a line, with its variations. */
    method CheckMove(move: Ref, depth: nat) returns (ok: bool)
      requires Consistent() && depth <= MAX_DEPTH
      modifies this
      ensures ok <==> Passes(old(order), Visit(heap, move, 2 * depth + 1))
      ensures ok ==>
          Visit(heap, move, 2 * depth + 1).Some?
          && order == old(order) + Visit(heap, move, 2 * depth + 1).value
      ensures ok ==> Consistent() && active == old(active)
      decreases MAX_DEPTH + 1 - depth, 0
    {
      hide Visit, VisitAll, Passes, Distinct;
      ghost var before, outside := order, active;
      Refused(heap, before, move, 2 * depth + 1);
      var o := Get(heap, move);
      if !o.MoveObject? {
        return false;
      }
      var claimed := Claim(move);
      if !claimed {
        return false;
      }
      var early := CheckComments(o.before);
      var late := CheckComments(o.after);
      if !Get(heap, o.nags).TextsObject? || !early || !late || !IsNodes(heap, o.variations) {
        return false;
      }
      HeadPasses(heap, before, move, 2 * depth + 1);
      var variations := Items(heap, o.variations);
      NothingVisited(heap, 2 * depth + 2);
      for i := 0 to |variations|
        invariant Consistent() && active == outside
        invariant VisitAll(heap, variations[..i], 2 * depth + 2).Some?
        invariant order == before + [move] + VisitAll(heap, variations[..i], 2 * depth + 2).value
      {
        NextPasses(heap, before + [move], variations, 2 * depth + 2, i);
        var fine := CheckLine(variations[i], depth + 1);
        if !fine {
          return false;
        }
      }
      assert variations[..|variations|] == variations;
      AllPasses(heap, before + [move], variations, 2 * depth + 2);
      return true;
    }
  }

  /** The whole check of a game's line. */
  method CheckGame(heap: Heap, line: Ref) returns (ok: bool)
    ensures ok <==> Passes([], Visit(heap, line, 0))
  {
    var check := new GraphCheck(heap);
    ok := check.CheckLine(line, 0);
  }

  ghost predicate Reached(h: Heap, r: Ref, x: Ref) {
    exists path :: Reach(h, r, path) == Some(x)
  }

  lemma {:induction false} DistinctCount(xs: seq<Ref>, members: set<Ref>)
    requires Distinct(xs) && forall x :: x in members <==> x in xs
    ensures |members| == |xs|
  {
    if xs != [] {
      assert xs == [xs[0]] + xs[1..];
      assert forall i :: 0 <= i < |xs[1..]| ==> xs[1..][i] == xs[i + 1];
      DistinctCount(xs[1..], members - {xs[0]});
    }
  }

  /** The check accepts exactly the graphs in which every object reached is of the right class and not too deep, none is
      reached along two paths, and there are few enough of them. */
  lemma AcceptsExactlyTrees(h: Heap, line: Ref, objects: set<Ref>)
    requires forall x :: x in objects <==> Reached(h, line, x)
    ensures Passes([], Visit(h, line, 0)) <==> WellFormed(h, line, 0) && IsTree(h, line) && |objects| <= MAX_NODES
  {
    VisitDefined(h, line, 0);
    var visit := Visit(h, line, 0);
    if visit.Some? {
      assert [] + visit.value == visit.value;
      forall x
        ensures x in objects <==> x in visit.value
      {
        if x in visit.value {
          VisitedIsReached(h, line, 0, x);
        }
        if path :| Reach(h, line, path) == Some(x) {
          ReachedIsVisited(h, line, 0, path);
        }
      }
      if IsTree(h, line) {
        TreeIsDistinct(h, line, 0);
      }
      if Distinct(visit.value) {
        DistinctCount(visit.value, objects);
        forall p, q | Reach(h, line, p).Some? && Reach(h, line, p) == Reach(h, line, q)
          ensures p == q
        {
          DistinctIsTree(h, line, 0, p, q);
        }
      }
    }
  }

  // ----- the detached copy

  datatype Scalars = OfLine(result: Option<string>) | OfMove(san: string, number: Option<string>)

  /** A list of comments or of texts, with the objects it consists of. */
  datatype Leaf = Comments(list: Ref, items: seq<Ref>, values: seq<(string, string)>)
                | Texts(list: Ref, texts: seq<string>)

  /** A line or move read out of a heap: its own object, its scalars and leaf lists, its list of kids and the kids. */
  datatype Node = Node(ref: Ref, scalars: Scalars, leaves: seq<Leaf>, list: Ref, kids: seq<Node>)

  function CommentsAt(h: Heap, r: Ref): Leaf
    requires IsComments(h, r)
  {
    Comments(r, Items(h, r), seq(|Items(h, r)|, i requires 0 <= i < |Items(h, r)| => CommentValue(h, Items(h, r)[i])))
  }

  function CommentValue(h: Heap, r: Ref): (string, string)
    requires Get(h, r).CommentObject?
  {
    (Get(h, r).text, Get(h, r).style)
  }

  ghost function Unfold(h: Heap, r: Ref, level: nat): Node
    requires Visit(h, r, level).Some?
    decreases 2 * MAX_DEPTH + 2 - level, 1, 0
  {
    var o := Get(h, r);
    var kids := UnfoldAll(h, Kids(h, r), level + 1);
    if o.LineObject? then
      Node(r, OfLine(o.result), [CommentsAt(h, o.leading), CommentsAt(h, o.trailing)], o.moves, kids)
    else
      Node(r, OfMove(o.san, o.number),
           [Texts(o.nags, Get(h, o.nags).texts), CommentsAt(h, o.before), CommentsAt(h, o.after)],
           o.variations, kids)
  }

  ghost function UnfoldAll(h: Heap, rs: seq<Ref>, level: nat): (ns: seq<Node>)
    requires level <= 2 * MAX_DEPTH + 2 && VisitAll(h, rs, level).Some?
    ensures |ns| == |rs|
    decreases 2 * MAX_DEPTH + 2 - level, 2, |rs|
  {
    if rs == [] then [] else [Unfold(h, rs[0], level)] + UnfoldAll(h, rs[1..], level)
  }

  /** Equal but for the identity of objects. */
  predicate Same(a: Node, b: Node)
    decreases a
  {
    && a.scalars == b.scalars && |a.leaves| == |b.leaves|
    && (forall i :: 0 <= i < |a.leaves| ==> SameLeaf(a.leaves[i], b.leaves[i]))
    && SameAll(a.kids, b.kids)
  }

  predicate SameLeaf(a: Leaf, b: Leaf) {
    if a.Comments? then b.Comments? && a.values == b.values else b.Texts? && a.texts == b.texts
  }

  predicate SameAll(ns: seq<Node>, ms: seq<Node>)
    decreases ns
  {
    |ns| == |ms| && (ns == [] || (Same(ns[0], ms[0]) && SameAll(ns[1..], ms[1..])))
  }

  // ----- equal readings are equal objects all along

  predicate AlikeComments(g: Heap, a: Ref, h: Heap, b: Ref) {
    && IsComments(g, a) && IsComments(h, b) && |Items(g, a)| == |Items(h, b)|
    && forall i :: 0 <= i < |Items(g, a)| ==> Get(g, Items(g, a)[i]) == Get(h, Items(h, b)[i])
  }

  /** The same fields and comments, but for the identity of objects. */
  predicate AlikeObjects(g: Heap, a: Ref, h: Heap, b: Ref) {
    var x, y := Get(g, a), Get(h, b);
    match (x, y)
    case (LineObject(_, _, _, result), LineObject(_, _, _, other)) =>
      result == other && AlikeComments(g, x.leading, h, y.leading) && AlikeComments(g, x.trailing, h, y.trailing)
    case (MoveObject(san, number, _, _, _, _), MoveObject(san2, number2, _, _, _, _)) =>
      && san == san2 && number == number2 && Get(g, x.nags).TextsObject? && Get(g, x.nags) == Get(h, y.nags)
      && AlikeComments(g, x.before, h, y.before) && AlikeComments(g, x.after, h, y.after)
    case _ => false
  }

  lemma LeafAlike(g: Heap, a: Ref, h: Heap, b: Ref)
    requires IsComments(g, a) && IsComments(h, b) && SameLeaf(CommentsAt(g, a), CommentsAt(h, b))
    ensures AlikeComments(g, a, h, b)
  {
    var xs, ys := Items(g, a), Items(h, b);
    forall i | 0 <= i < |xs|
      ensures i < |ys| && Get(g, xs[i]) == Get(h, ys[i])
    {
      assert CommentsAt(g, a).values[i] == CommentValue(g, xs[i]);
      assert CommentsAt(h, b).values[i] == CommentValue(h, ys[i]);
    }
  }

  lemma RootAlike(g: Heap, a: Ref, h: Heap, b: Ref, level: nat)
    requires Visit(g, a, level).Some? && Visit(h, b, level).Some? && Same(Unfold(g, a, level), Unfold(h, b, level))
    ensures AlikeObjects(g, a, h, b) && VisitAll(g, Kids(g, a), level + 1).Some?
      && VisitAll(h, Kids(h, b), level + 1).Some?
    ensures level <= 2 * MAX_DEPTH + 1
    ensures SameAll(UnfoldAll(g, Kids(g, a), level + 1), UnfoldAll(h, Kids(h, b), level + 1))
  {
    VisitedIsFine(g, a, level);
    VisitedIsFine(h, b, level);
    var n, m := Unfold(g, a, level), Unfold(h, b, level);
    var x, y := Get(g, a), Get(h, b);
    hide Visit, UnfoldAll, IsComments, CommentsAt, SameAll;
    assert SameLeaf(n.leaves[0], m.leaves[0]) && SameLeaf(n.leaves[1], m.leaves[1]);
    if x.LineObject? {
      LeafAlike(g, x.leading, h, y.leading);
      LeafAlike(g, x.trailing, h, y.trailing);
    } else {
      assert SameLeaf(n.leaves[2], m.leaves[2]);
      LeafAlike(g, x.before, h, y.before);
      LeafAlike(g, x.after, h, y.after);
    }
  }

  lemma {:induction false} UnfoldedKid(h: Heap, rs: seq<Ref>, level: nat, i: nat)
    requires level <= 2 * MAX_DEPTH + 2 && VisitAll(h, rs, level).Some? && i < |rs|
    ensures Visit(h, rs[i], level).Some? && UnfoldAll(h, rs, level)[i] == Unfold(h, rs[i], level)
    decreases |rs|
  {
    hide Visit, Unfold;
    if i > 0 {
      UnfoldedKid(h, rs[1..], level, i - 1);
    }
  }

  lemma {:induction false} SameKid(ns: seq<Node>, ms: seq<Node>, i: nat)
    requires SameAll(ns, ms) && i < |ns|
    ensures |ns| == |ms| && Same(ns[i], ms[i])
    decreases |ns|
  {
    if i > 0 {
      SameKid(ns[1..], ms[1..], i - 1);
    }
  }

  /** Lines and moves reached along the same path in equal graphs have the same fields and comments, and the same paths
      lead on. */
  lemma {:induction false} SameAlongPaths(g: Heap, a: Ref, h: Heap, b: Ref, level: nat, path: seq<nat>)
    requires Visit(g, a, level).Some? && Visit(h, b, level).Some? && Same(Unfold(g, a, level), Unfold(h, b, level))
    ensures Reach(g, a, path).Some? <==> Reach(h, b, path).Some?
    ensures Reach(g, a, path).Some? ==> AlikeObjects(g, Reach(g, a, path).value, h, Reach(h, b, path).value)
    decreases |path|
  {
    hide Visit, Unfold, Same, AlikeObjects, Kids;
    RootAlike(g, a, h, b, level);
    var xs, ys := Kids(g, a), Kids(h, b);
    if xs != [] {
      SameKid(UnfoldAll(g, xs, level + 1), UnfoldAll(h, ys, level + 1), 0);
    }
    assert |xs| == |ys| by {
      SameCount(UnfoldAll(g, xs, level + 1), UnfoldAll(h, ys, level + 1));
    }
    if path != [] && path[0] < |xs| {
      UnfoldedKid(g, xs, level + 1, path[0]);
      UnfoldedKid(h, ys, level + 1, path[0]);
      SameKid(UnfoldAll(g, xs, level + 1), UnfoldAll(h, ys, level + 1), path[0]);
      SameAlongPaths(g, xs[path[0]], h, ys[path[0]], level + 1, path[1..]);
    }
  }

  lemma SameCount(ns: seq<Node>, ms: seq<Node>)
    requires SameAll(ns, ms)
    ensures |ns| == |ms|
  {
  }

  /** Every object of a node: lines, moves, comments and lists. */
  function Owned(n: Node): seq<Ref>
    decreases n
  {
    OwnedAll(n.kids) + [n.list] + OwnedLeaves(n.leaves) + [n.ref]
  }

  function OwnedAll(ns: seq<Node>): seq<Ref>
    decreases ns
  {
    if ns == [] then [] else Owned(ns[0]) + OwnedAll(ns[1..])
  }

  function OwnedLeaf(l: Leaf): seq<Ref> {
    (if l.Comments? then l.items else []) + [l.list]
  }

  function OwnedLeaves(ls: seq<Leaf>): seq<Ref> {
    if ls == [] then [] else OwnedLeaf(ls[0]) + OwnedLeaves(ls[1..])
  }

  // ----- what a tree owns

  /** Everything the object x is made of: itself, its lists, and the comments in them. */
  function Made(h: Heap, x: Ref): seq<Ref> {
    match Get(h, x)
    case LineObject(moves, leading, trailing, _) =>
      [x, moves, leading, trailing] + Items(h, leading) + Items(h, trailing)
    case MoveObject(_, _, nags, before, after, variations) =>
      [x, nags, before, after, variations] + Items(h, before) + Items(h, after)
    case _ => [x]
  }

  lemma RootOwns(h: Heap, r: Ref, level: nat)
    requires Visit(h, r, level).Some?
    ensures forall x :: x in Made(h, r) ==> x in Owned(Unfold(h, r, level))
    ensures VisitAll(h, Kids(h, r), level + 1).Some? && level <= 2 * MAX_DEPTH + 1
    ensures forall x :: x in OwnedAll(UnfoldAll(h, Kids(h, r), level + 1)) ==> x in Owned(Unfold(h, r, level))
  {
    VisitedIsFine(h, r, level);
    var o := Get(h, r);
    hide Visit, UnfoldAll, IsComments;
    if o.LineObject? {
      TwoLeaves(CommentsAt(h, o.leading), CommentsAt(h, o.trailing));
    } else {
      ThreeLeaves(Texts(o.nags, Get(h, o.nags).texts), CommentsAt(h, o.before), CommentsAt(h, o.after));
    }
  }

  lemma {:induction false} KidsOwned(ns: seq<Node>, i: nat)
    requires i < |ns|
    ensures forall x :: x in Owned(ns[i]) ==> x in OwnedAll(ns)
    decreases |ns|
  {
    if i > 0 {
      KidsOwned(ns[1..], i - 1);
    }
  }

  /** A tree owns everything that whatever is reached in it is made of. */
  lemma {:induction false} ReachedIsOwned(h: Heap, r: Ref, level: nat, path: seq<nat>)
    requires Visit(h, r, level).Some? && Reach(h, r, path).Some?
    ensures forall x :: x in Made(h, Reach(h, r, path).value) ==> x in Owned(Unfold(h, r, level))
    decreases |path|
  {
    hide Visit, Unfold, Owned, OwnedAll, Made, Kids;
    RootOwns(h, r, level);
    if path != [] {
      var kids := Kids(h, r);
      UnfoldedKid(h, kids, level + 1, path[0]);
      KidsOwned(UnfoldAll(h, kids, level + 1), path[0]);
      ReachedIsOwned(h, kids[path[0]], level + 1, path[1..]);
    }
  }

  lemma TwoLeaves(a: Leaf, b: Leaf)
    ensures OwnedLeaves([a, b]) == OwnedLeaf(a) + OwnedLeaf(b)
  {
    assert [a, b][1..] == [b] && [b][1..] == [];
    assert OwnedLeaves([b]) == OwnedLeaf(b) + [];
  }

  lemma ThreeLeaves(a: Leaf, b: Leaf, c: Leaf)
    ensures OwnedLeaves([a, b, c]) == OwnedLeaf(a) + (OwnedLeaf(b) + OwnedLeaf(c))
  {
    assert [a, b, c][1..] == [b, c];
    TwoLeaves(b, c);
  }

  /** Distinct objects made between two points of time, counted by allocations. */
  ghost predicate MadeBetween(rs: seq<Ref>, lo: Ref, hi: Ref) {
    lo <= hi && Distinct(rs) && forall i :: 0 <= i < |rs| ==> lo <= rs[i] < hi
  }

  lemma MadeInTurn(a: seq<Ref>, b: seq<Ref>, lo: Ref, mid: Ref, hi: Ref)
    requires MadeBetween(a, lo, mid) && MadeBetween(b, mid, hi)
    ensures MadeBetween(a + b, lo, hi) && MadeBetween(b + a, lo, hi)
  {
    DistinctConcat(a, b);
    DistinctConcat(b, a);
  }

  /** Objects are never changed once made. */
  predicate Extends(h: Heap, g: Heap) {
    forall r :: r in h ==> r in g && g[r] == h[r]
  }

  lemma ExtendsTwice(f: Heap, g: Heap, h: Heap)
    requires Extends(f, g) && Extends(g, h)
    ensures Extends(f, h)
  {
  }

  lemma ObjectKept(h: Heap, g: Heap, r: Ref)
    requires Extends(h, g) && !Get(h, r).Foreign?
    ensures Get(g, r) == Get(h, r) && Items(g, r) == Items(h, r)
  {
  }

  lemma CommentsKept(h: Heap, g: Heap, r: Ref)
    requires Extends(h, g) && IsComments(h, r)
    ensures IsComments(g, r) && CommentsAt(g, r) == CommentsAt(h, r)
  {
    assert Items(g, r) == Items(h, r);
    forall i | 0 <= i < |Items(h, r)|
      ensures Get(g, Items(h, r)[i]) == Get(h, Items(h, r)[i])
    {
    }
  }

  lemma FineKept(h: Heap, g: Heap, r: Ref, level: nat)
    requires Extends(h, g) && Fine(h, r, level)
    ensures Fine(g, r, level) && Get(g, r) == Get(h, r) && Kids(g, r) == Kids(h, r)
    ensures var o := Get(h, r);
      && (o.LineObject? ==>
            CommentsAt(g, o.leading) == CommentsAt(h, o.leading)
            && CommentsAt(g, o.trailing) == CommentsAt(h, o.trailing))
      && (o.MoveObject? ==>
            && CommentsAt(g, o.before) == CommentsAt(h, o.before) && CommentsAt(g, o.after) == CommentsAt(h, o.after)
            && Get(g, o.nags) == Get(h, o.nags))
  {
    var o := Get(h, r);
    if o.LineObject? {
      CommentsKept(h, g, o.leading);
      CommentsKept(h, g, o.trailing);
    } else {
      CommentsKept(h, g, o.before);
      CommentsKept(h, g, o.after);
    }
    hide IsComments, CommentsAt;
  }

  lemma {:induction false} Framed(h: Heap, g: Heap, r: Ref, level: nat)
    requires Extends(h, g) && Visit(h, r, level).Some?
    ensures Visit(g, r, level) == Visit(h, r, level) && Unfold(g, r, level) == Unfold(h, r, level)
    decreases 2 * MAX_DEPTH + 2 - level, 1, 0
  {
    FineKept(h, g, r, level);
    FramedAll(h, g, Kids(h, r), level + 1);
  }

  lemma {:induction false} FramedAll(h: Heap, g: Heap, rs: seq<Ref>, level: nat)
    requires level <= 2 * MAX_DEPTH + 2 && Extends(h, g) && VisitAll(h, rs, level).Some?
    ensures VisitAll(g, rs, level) == VisitAll(h, rs, level) && UnfoldAll(g, rs, level) == UnfoldAll(h, rs, level)
    decreases 2 * MAX_DEPTH + 2 - level, 2, |rs|
  {
    if rs != [] {
      Framed(h, g, rs[0], level);
      FramedAll(h, g, rs[1..], level);
    }
  }

  /** c, in g, is a copy of r, in h, made between lo and hi. */
  ghost predicate Copied(h: Heap, r: Ref, g: Heap, c: Ref, lo: Ref, hi: Ref, level: nat) {
    && Visit(h, r, level).Some? && Visit(g, c, level).Some?
    && Same(Unfold(g, c, level), Unfold(h, r, level)) && MadeBetween(Owned(Unfold(g, c, level)), lo, hi)
  }

  ghost predicate CopiedAll(h: Heap, rs: seq<Ref>, g: Heap, cs: seq<Ref>, lo: Ref, hi: Ref, level: nat)
    requires level <= 2 * MAX_DEPTH + 2
  {
    && VisitAll(h, rs, level).Some? && VisitAll(g, cs, level).Some?
    && SameAll(UnfoldAll(g, cs, level), UnfoldAll(h, rs, level))
    && MadeBetween(OwnedAll(UnfoldAll(g, cs, level)), lo, hi)
  }

  lemma {:induction false} UnfoldSnoc(h: Heap, rs: seq<Ref>, r: Ref, level: nat)
    requires level <= 2 * MAX_DEPTH + 2 && VisitAll(h, rs, level).Some? && Visit(h, r, level).Some?
    ensures VisitAll(h, rs + [r], level).Some?
    ensures UnfoldAll(h, rs + [r], level) == UnfoldAll(h, rs, level) + [Unfold(h, r, level)]
    decreases |rs|
  {
    hide Fine, Kids;
    if rs == [] {
      assert (rs + [r])[1..] == [];
    } else {
      assert (rs + [r])[1..] == rs[1..] + [r];
      UnfoldSnoc(h, rs[1..], r, level);
    }
  }

  lemma {:induction false} SameSnoc(ns: seq<Node>, ms: seq<Node>, a: Node, b: Node)
    requires SameAll(ns, ms) && Same(a, b)
    ensures SameAll(ns + [a], ms + [b])
  {
    if ns != [] {
      assert (ns + [a])[1..] == ns[1..] + [a] && (ms + [b])[1..] == ms[1..] + [b];
      SameSnoc(ns[1..], ms[1..], a, b);
    }
  }

  lemma {:induction false} OwnedSnoc(ns: seq<Node>, n: Node)
    ensures OwnedAll(ns + [n]) == OwnedAll(ns) + Owned(n)
  {
    if ns == [] {
      assert OwnedAll([n]) == Owned(n) + [];
    } else {
      assert (ns + [n])[1..] == ns[1..] + [n];
      OwnedSnoc(ns[1..], n);
    }
  }

  /** One more copy, made after the others. */
  lemma CopiedSnoc(h: Heap, rs: seq<Ref>, i: nat, f: Heap, cs: seq<Ref>, g: Heap, c: Ref, lo: Ref, mid: Ref, hi: Ref,
                   level: nat)
    requires level <= 2 * MAX_DEPTH + 2 && i < |rs|
    requires CopiedAll(h, rs[..i], f, cs, lo, mid, level) && Extends(f, g) && Copied(h, rs[i], g, c, mid, hi, level)
    ensures CopiedAll(h, rs[..i + 1], g, cs + [c], lo, hi, level)
  {
    hide Visit, VisitAll, Unfold, UnfoldAll, MadeBetween, Extends;
    FramedAll(f, g, cs, level);
    UnfoldSnoc(g, cs, c, level);
    UnfoldSnoc(h, rs[..i], rs[i], level);
    assert rs[..i + 1] == rs[..i] + [rs[i]];
    SameSnoc(UnfoldAll(g, cs, level), UnfoldAll(h, rs[..i], level), Unfold(g, c, level), Unfold(h, rs[i], level));
    OwnedSnoc(UnfoldAll(g, cs, level), Unfold(g, c, level));
    MadeInTurn(OwnedAll(UnfoldAll(g, cs, level)), Owned(Unfold(g, c, level)), lo, mid, hi);
  }

  lemma VisitedIsFine(h: Heap, r: Ref, level: nat)
    requires Visit(h, r, level).Some?
    ensures level <= 2 * MAX_DEPTH + 1 && VisitAll(h, Kids(h, r), level + 1).Some?
    ensures if level % 2 == 0 then IsLine(h, r) else IsMove(h, r)
  {
  }

  lemma NothingCopied(h: Heap, rs: seq<Ref>, g: Heap, lo: Ref, level: nat)
    requires level <= 2 * MAX_DEPTH + 2
    ensures CopiedAll(h, rs[..0], g, [], lo, lo, level)
  {
    assert rs[..0] == [];
  }

  /** A kid still to be copied is still what it was. */
  lemma KidKept(h: Heap, f: Heap, rs: seq<Ref>, level: nat, i: nat)
    requires level <= 2 * MAX_DEPTH + 2 && Extends(h, f) && VisitAll(h, rs, level).Some? && i < |rs|
    ensures Visit(h, rs[i], level).Some? && Visit(f, rs[i], level).Some?
      && Unfold(f, rs[i], level) == Unfold(h, rs[i], level)
  {
    VisitOne(h, rs, level, i);
    Framed(h, f, rs[i], level);
  }

  /** A line made of copied moves and comments is a copy. */
  lemma LineAssembled(h: Heap, line: Ref, g: Heap, copy: Ref, cs: seq<Ref>, lo: Ref, mid: Ref, mid1: Ref, mid2: Ref,
                      level: nat)
    requires Visit(h, line, level).Some? && level % 2 == 0 && Get(h, line).LineObject? && Get(g, copy).LineObject?
    requires Get(g, copy).result == Get(h, line).result
    requires IsNodes(g, Get(g, copy).moves) && Kids(g, copy) == cs
      && CopiedAll(h, Kids(h, line), g, cs, lo, mid, level + 1)
    requires var o, c := Get(h, line), Get(g, copy);
      && IsComments(g, c.leading) && CommentsAt(g, c.leading).values == CommentsAt(h, o.leading).values
      && IsComments(g, c.trailing) && CommentsAt(g, c.trailing).values == CommentsAt(h, o.trailing).values
      && MadeBetween(Items(g, c.leading) + [c.leading], mid + 1, mid1)
      && MadeBetween(Items(g, c.trailing) + [c.trailing], mid1, mid2)
      && c.moves == mid && copy == mid2
    ensures Copied(h, line, g, copy, lo, mid2 + 1, level)
  {
    var o, c := Get(h, line), Get(g, copy);
    var a, b := Items(g, c.leading) + [c.leading], Items(g, c.trailing) + [c.trailing];
    var kids := UnfoldAll(g, cs, level + 1);
    var leaves := [CommentsAt(g, c.leading), CommentsAt(g, c.trailing)];
    TwoLeaves(leaves[0], leaves[1]);
    var n := Unfold(g, copy, level);
    assert n == Node(copy, OfLine(c.result), leaves, c.moves, kids);
    assert Same(n, Unfold(h, line, level));
    hide *;
    LineMade(n, a, b, lo, mid, mid1, mid2);
  }

  lemma LineMade(n: Node, a: seq<Ref>, b: seq<Ref>, lo: Ref, mid: Ref, mid1: Ref, mid2: Ref)
    requires MadeBetween(OwnedAll(n.kids), lo, mid) && n.list == mid && n.ref == mid2 && OwnedLeaves(n.leaves) == a + b
    requires MadeBetween(a, mid + 1, mid1) && MadeBetween(b, mid1, mid2)
    ensures MadeBetween(Owned(n), lo, mid2 + 1)
  {
    hide OwnedAll, OwnedLeaves;
    var kids := OwnedAll(n.kids);
    MadeInTurn(a, b, mid + 1, mid1, mid2);
    MadeInTurn([mid], a + b, mid, mid + 1, mid2);
    MadeInTurn(kids, [mid] + (a + b), lo, mid, mid2);
    MadeInTurn(kids + ([mid] + (a + b)), [mid2], lo, mid2, mid2 + 1);
    assert Owned(n) == kids + ([mid] + (a + b)) + [mid2];
  }

  /** A move made of copied texts, comments and variations is a copy. */
  lemma MoveAssembled(h: Heap, move: Ref, g: Heap, copy: Ref, cs: seq<Ref>, lo: Ref, mid1: Ref, mid2: Ref, mid: Ref,
                      level: nat)
    requires Visit(h, move, level).Some? && level % 2 == 1 && Get(h, move).MoveObject? && Get(g, copy).MoveObject?
    requires Get(g, copy).san == Get(h, move).san && Get(g, copy).number == Get(h, move).number
    requires IsNodes(g, Get(g, copy).variations) && Kids(g, copy) == cs
      && CopiedAll(h, Kids(h, move), g, cs, mid2, mid, level + 1)
    requires var o, c := Get(h, move), Get(g, copy);
      && Get(g, c.nags).TextsObject? && Get(g, c.nags).texts == Get(h, o.nags).texts
      && IsComments(g, c.before) && CommentsAt(g, c.before).values == CommentsAt(h, o.before).values
      && IsComments(g, c.after) && CommentsAt(g, c.after).values == CommentsAt(h, o.after).values
      && c.nags == lo
      && MadeBetween(Items(g, c.before) + [c.before], lo + 1, mid1)
      && MadeBetween(Items(g, c.after) + [c.after], mid1, mid2)
      && c.variations == mid && copy == mid + 1
    ensures Copied(h, move, g, copy, lo, mid + 2, level)
  {
    var o, c := Get(h, move), Get(g, copy);
    var a, b := Items(g, c.before) + [c.before], Items(g, c.after) + [c.after];
    var kids := UnfoldAll(g, cs, level + 1);
    var leaves := [Texts(c.nags, Get(g, c.nags).texts), CommentsAt(g, c.before), CommentsAt(g, c.after)];
    ThreeLeaves(leaves[0], leaves[1], leaves[2]);
    assert OwnedLeaf(leaves[0]) == [lo];
    var n := Unfold(g, copy, level);
    assert n == Node(copy, OfMove(c.san, c.number), leaves, c.variations, kids);
    assert Same(n, Unfold(h, move, level));
    hide *;
    MoveMade(n, a, b, lo, mid1, mid2, mid);
  }

  lemma MoveMade(n: Node, a: seq<Ref>, b: seq<Ref>, lo: Ref, mid1: Ref, mid2: Ref, mid: Ref)
    requires MadeBetween(OwnedAll(n.kids), mid2, mid) && n.list == mid && n.ref == mid + 1
    requires OwnedLeaves(n.leaves) == [lo] + (a + b) && MadeBetween(a, lo + 1, mid1) && MadeBetween(b, mid1, mid2)
    ensures MadeBetween(Owned(n), lo, mid + 2)
  {
    hide OwnedAll, OwnedLeaves;
    var kids := OwnedAll(n.kids);
    MadeInTurn(a, b, lo + 1, mid1, mid2);
    MadeInTurn([lo], a + b, lo, lo + 1, mid2);
    MadeInTurn(kids, [mid], mid2, mid, mid + 1);
    MadeInTurn([lo] + (a + b), kids + [mid], lo, mid2, mid + 1);
    MadeInTurn(kids + [mid] + ([lo] + (a + b)), [mid + 1], lo, mid + 1, mid + 2);
  }

  /** Copies stay copies while more objects are made. */
  lemma CopiedKept(h: Heap, rs: seq<Ref>, f: Heap, cs: seq<Ref>, g: Heap, lo: Ref, hi: Ref, level: nat)
    requires level <= 2 * MAX_DEPTH + 2 && CopiedAll(h, rs, f, cs, lo, hi, level) && Extends(f, g)
    ensures CopiedAll(h, rs, g, cs, lo, hi, level)
  {
    FramedAll(f, g, cs, level);
  }

  /** What was copied from a heap with more objects in it was copied from the first. */
  lemma CopiedFrom(h: Heap, f: Heap, rs: seq<Ref>, g: Heap, cs: seq<Ref>, lo: Ref, hi: Ref, level: nat)
    requires level <= 2 * MAX_DEPTH + 2 && VisitAll(h, rs, level).Some? && Extends(h, f)
    requires CopiedAll(f, rs, g, cs, lo, hi, level)
    ensures CopiedAll(h, rs, g, cs, lo, hi, level)
  {
    FramedAll(h, f, rs, level);
  }

  class Store {
    var heap: Heap
    var next: Ref

    /** Objects are numbered in the order they are made. */
    ghost predicate Valid()
      reads this
    {
      forall r :: r in heap ==> r < next
    }

    constructor (heap: Heap, next: Ref)
      requires forall r :: r in heap ==> r < next
      ensures this.heap == heap && this.next == next && Valid()
    {
      this.heap, this.next := heap, next;
    }

    method Make(o: Object) returns (r: Ref)
      requires Valid()
      modifies this
      ensures Valid() && r == old(next) && next == old(next) + 1
      ensures heap == old(heap)[r := o] && Extends(old(heap), heap)
    {
      r := next;
      heap := heap[r := o];
      next := next + 1;
    }

    /** `[_detached_comment(item) for item in ...]`. */
    method DetachedComments(list: Ref) returns (copy: Ref)
      requires Valid() && IsComments(heap, list)
      modifies this
      ensures Valid() && Extends(old(heap), heap)
      ensures IsComments(heap, copy) && CommentsAt(heap, copy).values == CommentsAt(old(heap), list).values
      ensures MadeBetween(Items(heap, copy) + [copy], old(next), next)
    {
      ghost var h := heap;
      var items := Items(heap, list);
      var copies: seq<Ref> := [];
      for i := 0 to |items|
        invariant Valid() && Extends(h, heap) && |copies| == i
        invariant forall j :: 0 <= j < i ==> Get(heap, copies[j]) == Get(h, items[j])
        invariant MadeBetween(copies, old(next), next)
      {
        var made := Make(CommentObject(Get(heap, items[i]).text, Get(heap, items[i]).style));
        copies := copies + [made];
      }
      copy := Make(ListObject(copies));
    }

    /** `[_detached_move(move) for move in line.moves]`. */
    method DetachedMoves(moves: seq<Ref>, ghost depth: nat) returns (copies: seq<Ref>)
      requires Valid() && depth <= MAX_DEPTH && VisitAll(heap, moves, 2 * depth + 1).Some?
      modifies this
      ensures Valid() && Extends(old(heap), heap) && |copies| == |moves|
      ensures CopiedAll(old(heap), moves, heap, copies, old(next), next, 2 * depth + 1)
      decreases 2 * MAX_DEPTH + 2 - (2 * depth + 1), 2
    {
      hide Visit, VisitAll, Unfold, UnfoldAll, MadeBetween;
      ghost var h, lo := heap, next;
      copies := [];
      NothingCopied(h, moves, heap, lo, 2 * depth + 1);
      for i := 0 to |moves|
        invariant Valid() && Extends(h, heap) && |copies| == i
        invariant CopiedAll(h, moves[..i], heap, copies, lo, next, 2 * depth + 1)
      {
        ghost var f, mid := heap, next;
        KidKept(h, f, moves, 2 * depth + 1, i);
        var made := DetachedMove(moves[i], depth);
        CopiedSnoc(h, moves, i, f, copies, heap, made, lo, mid, next, 2 * depth + 1);
        copies := copies + [made];
      }
      assert moves[..|moves|] == moves;
    }

    /** `[_detached_line(line) for line in move.variations]`. */
    method DetachedLines(variations: seq<Ref>, ghost depth: nat) returns (copies: seq<Ref>)
      requires Valid() && depth <= MAX_DEPTH && VisitAll(heap, variations, 2 * depth + 2).Some?
      modifies this
      ensures Valid() && Extends(old(heap), heap) && |copies| == |variations|
      ensures CopiedAll(old(heap), variations, heap, copies, old(next), next, 2 * depth + 2)
      decreases 2 * MAX_DEPTH + 2 - (2 * depth + 2), 2
    {
      hide Visit, VisitAll, Unfold, UnfoldAll, MadeBetween;
      ghost var h, lo := heap, next;
      copies := [];
      NothingCopied(h, variations, heap, lo, 2 * depth + 2);
      for i := 0 to |variations|
        invariant Valid() && Extends(h, heap) && |copies| == i
        invariant CopiedAll(h, variations[..i], heap, copies, lo, next, 2 * depth + 2)
      {
        ghost var f, mid := heap, next;
        KidKept(h, f, variations, 2 * depth + 2, i);
        var made := DetachedLine(variations[i], depth + 1);
        CopiedSnoc(h, variations, i, f, copies, heap, made, lo, mid, next, 2 * depth + 2);
        copies := copies + [made];
      }
      assert variations[..|variations|] == variations;
    }

    /** `_detached_line`. */
    method DetachedLine(line: Ref, ghost depth: nat) returns (copy: Ref)
      requires Valid() && Visit(heap, line, 2 * depth).Some?
      modifies this
      ensures Valid() && Extends(old(heap), heap)
      ensures Copied(old(heap), line, heap, copy, old(next), next, 2 * depth)
      decreases 2 * MAX_DEPTH + 2 - 2 * depth, 1
    {
      hide Visit, VisitAll, Unfold, UnfoldAll, MadeBetween, IsComments, CommentsAt, CopiedAll, Copied, Fine;
      ghost var h, lo := heap, next;
      VisitedIsFine(h, line, 2 * depth);
      var o := Get(heap, line);
      var copies := DetachedMoves(Items(heap, o.moves), depth);
      ghost var f, mid := heap, next;
      var list := Make(ListObject(copies));
      CommentsKept(h, heap, o.leading);
      var leading := DetachedComments(o.leading);
      ghost var f1, mid1 := heap, next;
      CommentsKept(h, heap, o.trailing);
      var trailing := DetachedComments(o.trailing);
      ghost var f2, mid2 := heap, next;
      CommentsKept(f1, heap, leading);
      copy := Make(LineObject(list, leading, trailing, o.result));
      CommentsKept(f2, heap, leading);
      CommentsKept(f2, heap, trailing);
      CopiedKept(h, Items(h, o.moves), f, copies, heap, lo, mid, 2 * depth + 1);
      LineAssembled(h, line, heap, copy, copies, lo, mid, mid1, mid2, 2 * depth);
    }

    /** `_detached_move`. */
    method DetachedMove(move: Ref, ghost depth: nat) returns (copy: Ref)
      requires Valid() && Visit(heap, move, 2 * depth + 1).Some?
      modifies this
      ensures Valid() && Extends(old(heap), heap)
      ensures Copied(old(heap), move, heap, copy, old(next), next, 2 * depth + 1)
      decreases 2 * MAX_DEPTH + 2 - (2 * depth + 1), 1
    {
      hide Visit, VisitAll, Unfold, UnfoldAll, MadeBetween, IsComments, CommentsAt, CopiedAll, Copied, Fine, Extends;
      ghost var h, lo := heap, next;
      VisitedIsFine(h, move, 2 * depth + 1);
      var o := Get(heap, move);
      var nags := Make(TextsObject(Get(heap, o.nags).texts));
      ghost var f0 := heap;
      CommentsKept(h, f0, o.before);
      var before := DetachedComments(o.before);
      ghost var f1, mid1 := heap, next;
      ExtendsTwice(h, f0, f1);
      CommentsKept(h, f1, o.after);
      var after := DetachedComments(o.after);
      ghost var f2, mid2 := heap, next;
      ExtendsTwice(h, f1, f2);
      ObjectKept(h, f2, o.variations);
      var variations := Items(heap, o.variations);
      FramedAll(h, f2, variations, 2 * depth + 2);
      var copies := DetachedLines(variations, depth);
      ghost var f, mid := heap, next;
      var list := Make(ListObject(copies));
      ghost var f3 := heap;
      copy := Make(MoveObject(o.san, o.number, nags, before, after, list));
      ExtendsTwice(f, f3, heap);
      ExtendsTwice(f2, f, heap);
      ExtendsTwice(f1, f2, heap);
      ExtendsTwice(f0, f1, heap);
      ExtendsTwice(h, f0, heap);
      CommentsKept(f1, heap, before);
      CommentsKept(f2, heap, after);
      ObjectKept(f0, heap, nags);
      CopiedFrom(h, f2, variations, f, copies, mid2, mid, 2 * depth + 2);
      CopiedKept(h, variations, f, copies, heap, mid2, mid, 2 * depth + 2);
      MoveAssembled(h, move, heap, copy, copies, lo, mid1, mid2, mid, 2 * depth + 1);
    }

    /** The check and the copy of `_canonical_copy`: an accepted line is copied without a shared object, and the
        original stays as it was. */
    method CanonicalCopy(line: Ref) returns (copy: Option<Ref>)
      requires Valid()
      modifies this
      ensures copy.Some? <==> Passes([], Visit(old(heap), line, 0))
      ensures copy.None? ==> heap == old(heap)
      ensures copy.Some? ==>
          Extends(old(heap), heap) && Visit(old(heap), line, 0).Some?
          && Visit(heap, copy.value, 0).Some?
      ensures copy.Some? ==> Same(Unfold(heap, copy.value, 0), Unfold(old(heap), line, 0))
      ensures copy.Some? ==>
        var mine := Owned(Unfold(heap, copy.value, 0)); Distinct(mine) && forall x :: x in mine ==> x !in old(heap)
      ensures copy.Some? ==> forall path ::
        && (Reach(heap, copy.value, path).Some? <==> Reach(old(heap), line, path).Some?)
        && (Reach(heap, copy.value, path).Some? ==>
              var x := Reach(heap, copy.value, path).value;
              && AlikeObjects(heap, x, old(heap), Reach(old(heap), line, path).value)
              && forall y :: y in Made(heap, x) ==> y !in old(heap))
    {
      hide Visit, Unfold, Owned, Same, AlikeObjects, Made, Reach;
      var ok := CheckGame(heap, line);
      if !ok {
        return None;
      }
      ghost var before := heap;
      var made := DetachedLine(line, 0);
      forall path
        ensures Reach(heap, made, path).Some? <==> Reach(before, line, path).Some?
        ensures Reach(heap, made, path).Some? ==>
            var x := Reach(heap, made, path).value;
            && AlikeObjects(heap, x, before, Reach(before, line, path).value)
            && forall y :: y in Made(heap, x) ==> y !in before
      {
        SameAlongPaths(heap, made, before, line, 0, path);
        if Reach(heap, made, path).Some? {
          ReachedIsOwned(heap, made, 0, path);
        }
      }
      return Some(made);
    }
  }
}
