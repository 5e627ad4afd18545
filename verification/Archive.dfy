/** The package index of an EPUB archive (acs/book_epub_import.py): a trie over case-folded path parts finds exactly the
    clashes a comparison of every two entries would find, and accepted local records never overlap. */
module Archive {
  import opened Base
  import opened Text

  const MAX_ENTRIES := 20_000
  const MAX_ENTRY_BYTES := 16 * 1024 * 1024
  const MAX_TOTAL_BYTES := 128 * 1024 * 1024
  const HEADER_BYTES := 30

  type Path = seq<string>

  /** An entry: its name without a trailing slash, whether it had one, where its local record lies, and its sizes. */
  datatype Entry = Entry(name: string, directory: bool, start: nat, end: nat, extra: nat, size: nat)

  function Parts(e: Entry): (p: Path)
    ensures p != []
  {
    SplitOn(e.name, '/')
  }

  /** Canonical case folding of every part; the folding itself is a parameter. */
  function Folded(fold: string -> string, p: Path): (f: Path)
    ensures |f| == |p|
  {
    if p == [] then [] else Folded(fold, p[..|p| - 1]) + [fold(p[|p| - 1])]
  }

  lemma {:induction false} FoldedPrefix(fold: string -> string, p: Path, k: nat)
    requires k <= |p|
    ensures Folded(fold, p)[..k] == Folded(fold, p[..k])
  {
    if k < |p| {
      var init := p[..|p| - 1];
      FoldedPrefix(fold, init, k);
      assert init[..k] == p[..k];
    } else {
      assert p[..k] == p;
    }
  }

  // ----- what the index promises, entry against entry

  /** Prefixes that fold alike are spelled alike. */
  ghost predicate SpelledAlike(fold: string -> string, p: Path, q: Path) {
    forall k :: 1 <= k <= |p| && k <= |q| && Folded(fold, p[..k]) == Folded(fold, q[..k]) ==> p[..k] == q[..k]
  }

  /** The path p, or a folded spelling of it, is q or a directory above q. */
  predicate Above(fold: string -> string, p: Path, q: Path) {
    |p| <= |q| && Folded(fold, p) == Folded(fold, q[..|p|])
  }

  ghost predicate Compatible(fold: string -> string, a: Entry, b: Entry) {
    && a.name != b.name
    && SpelledAlike(fold, Parts(a), Parts(b))
    && (!a.directory ==> !Above(fold, Parts(a), Parts(b)))
    && (!b.directory ==> !Above(fold, Parts(b), Parts(a)))
  }

  ghost predicate NamesAgree(fold: string -> string, es: seq<Entry>) {
    forall i, j :: 0 <= i < j < |es| ==> Compatible(fold, es[i], es[j])
  }

  lemma SameParts(a: Entry, b: Entry)
    requires Parts(a) == Parts(b)
    ensures a.name == b.name
  {
    JoinOfSplit(a.name, '/');
    JoinOfSplit(b.name, '/');
  }

  // ----- the trie

  type Edges = map<(nat, string), (nat, string)>

  /** An edge leads from a path to the path one part longer, and is labelled with that part folded. */
  predicate EdgeFits(fold: string -> string, children: Edges, raws: seq<Path>, e: (nat, string))
    requires e in children
  {
    && e.0 < |raws| && 1 <= children[e].0 < |raws| && e.1 == fold(children[e].1)
    && raws[children[e].0] == raws[e.0] + [children[e].1]
  }

  /** Every node but the root hangs on the edge from its parent. */
  predicate NodeHangs(fold: string -> string, children: Edges, raws: seq<Path>, parents: seq<nat>, n: nat)
    requires 1 <= n < |raws| == |parents|
  {
    && parents[n] < |raws| && raws[n] != [] && raws[n][..|raws[n]| - 1] == raws[parents[n]]
    && (parents[n], fold(raws[n][|raws[n]| - 1])) in children
    && children[(parents[n], fold(raws[n][|raws[n]| - 1]))].0 == n
  }

  /** raws[n] is the path of node n as spelled, parents[n] the node above it; no two nodes' paths fold alike. */
  ghost predicate Shape(fold: string -> string, children: Edges, raws: seq<Path>, parents: seq<nat>) {
    && |raws| == |parents| > 0 && raws[0] == []
    && (forall e :: e in children ==> EdgeFits(fold, children, raws, e))
    && (forall n :: 1 <= n < |raws| ==> NodeHangs(fold, children, raws, parents, n))
    && (forall m, n :: 0 <= m < n < |raws| ==> Folded(fold, raws[m]) != Folded(fold, raws[n]))
  }

  predicate PrefixOf(r: Path, p: Path, k: nat) {
    1 <= |r| <= k && |r| <= |p| && p[..|r|] == r
  }

  /** r is a path prefix of an entry seen, or of the first k parts of the current one. */
  ghost predicate Known(es: seq<Entry>, cur: Path, k: nat, r: Path) {
    (exists i :: 0 <= i < |es| && PrefixOf(r, Parts(es[i]), |Parts(es[i])|)) || PrefixOf(r, cur, k)
  }

  ghost predicate KnownFile(es: seq<Entry>, r: Path) {
    exists i :: 0 <= i < |es| && !es[i].directory && Parts(es[i]) == r
  }

  ghost predicate KnownDirectory(es: seq<Entry>, cur: Path, k: nat, r: Path) {
    || (exists i :: 0 <= i < |es| && (if es[i].directory then PrefixOf(r, Parts(es[i]), |Parts(es[i])|)
                                      else PrefixOf(r, Parts(es[i]), |Parts(es[i])| - 1)))
    || (|cur| > 0 && PrefixOf(r, cur, if k < |cur| then k else |cur| - 1))
  }

  /** The trie holds exactly the paths of the entries seen and of the first k parts of the current one. */
  ghost predicate Holds(fold: string -> string, children: Edges, raws: seq<Path>, parents: seq<nat>,
                        directories: set<nat>, files: set<nat>, es: seq<Entry>, cur: Path, k: nat)
  {
    && Shape(fold, children, raws, parents)
    && (forall n :: 1 <= n < |raws| ==> Known(es, cur, k, raws[n]))
    && (forall r :: Known(es, cur, k, r) ==> NodeOf(raws, r))
    && (forall n :: n in directories ==> 1 <= n < |raws|) && (forall n :: n in files ==> 1 <= n < |raws|)
    && (forall n :: 1 <= n < |raws| ==> (n in directories <==> KnownDirectory(es, cur, k, raws[n])))
    && (forall n :: 1 <= n < |raws| ==> (n in files <==> KnownFile(es, raws[n])))
  }

  ghost predicate NodeOf(raws: seq<Path>, r: Path) {
    exists n :: 1 <= n < |raws| && raws[n] == r
  }

  // ----- one step down the trie

  lemma LastPart(cur: Path, k: nat)
    requires k < |cur|
    ensures cur[..k + 1][..|cur[..k + 1]| - 1] == cur[..k] && cur[..k + 1] == cur[..k] + [cur[k]]
  {
  }

  /** A node whose path folds like the one below n hangs on the edge from n. */
  lemma FoldsLikeChild(fold: string -> string, children: Edges, raws: seq<Path>, parents: seq<nat>, n: nat, cur: Path,
                       k: nat, m: nat)
    requires Shape(fold, children, raws, parents) && n < |raws| && k < |cur| && raws[n] == cur[..k]
    requires m < |raws| && Folded(fold, raws[m]) == Folded(fold, cur[..k + 1])
    ensures (n, fold(cur[k])) in children && children[(n, fold(cur[k]))].0 == m
  {
    LastPart(cur, k);
    assert |raws[m]| == k + 1;
    assert NodeHangs(fold, children, raws, parents, m);
    var up := raws[m][..k];
    assert Folded(fold, raws[m]) == Folded(fold, up) + [fold(raws[m][k])];
    assert Folded(fold, cur[..k + 1]) == Folded(fold, cur[..k]) + [fold(cur[k])];
    assert Folded(fold, up) == Folded(fold, raws[m])[..k];
    assert fold(raws[m][k]) == Folded(fold, raws[m])[k];
    DistinctNodes(fold, children, raws, parents, parents[m], n);
  }

  /** No node's path folds like the one below n along an absent edge. */
  lemma AbsentEdgeIsNew(fold: string -> string, children: Edges, raws: seq<Path>, parents: seq<nat>, n: nat, cur: Path,
                        k: nat)
    requires Shape(fold, children, raws, parents) && n < |raws| && k < |cur| && raws[n] == cur[..k]
    requires (n, fold(cur[k])) !in children
    ensures forall m :: 0 <= m < |raws| ==> Folded(fold, raws[m]) != Folded(fold, cur[..k + 1])
  {
    hide Shape, Folded;
    forall m | 0 <= m < |raws|
      ensures Folded(fold, raws[m]) != Folded(fold, cur[..k + 1])
    {
      if Folded(fold, raws[m]) == Folded(fold, cur[..k + 1]) {
        FoldsLikeChild(fold, children, raws, parents, n, cur, k, m);
      }
    }
  }

  lemma NewNodeShape(fold: string -> string, children: Edges, raws: seq<Path>, parents: seq<nat>, n: nat, cur: Path,
                     k: nat)
    requires Shape(fold, children, raws, parents) && n < |raws| && k < |cur| && raws[n] == cur[..k]
    requires (n, fold(cur[k])) !in children
    ensures Shape(fold, children[(n, fold(cur[k])) := (|raws|, cur[k])], raws + [cur[..k + 1]], parents + [n])
  {
    AbsentEdgeIsNew(fold, children, raws, parents, n, cur, k);
    LastPart(cur, k);
    hide Folded;
    var edge := (n, fold(cur[k]));
    var c2: Edges := children[edge := (|raws|, cur[k])];
    var r2, p2 := raws + [cur[..k + 1]], parents + [n];
    forall e | e in c2
      ensures EdgeFits(fold, c2, r2, e)
    {
      assert e != edge ==> EdgeFits(fold, children, raws, e);
    }
    forall m | 1 <= m < |r2|
      ensures NodeHangs(fold, c2, r2, p2, m)
    {
      assert m < |raws| ==> NodeHangs(fold, children, raws, parents, m);
    }
  }

  lemma KnownGrows(es: seq<Entry>, cur: Path, k: nat, r: Path)
    requires k < |cur|
    ensures Known(es, cur, k + 1, r) <==> Known(es, cur, k, r) || r == cur[..k + 1]
    ensures KnownDirectory(es, cur, k + 1, r) <==> KnownDirectory(es, cur, k, r) || (k + 1 < |cur| && r == cur[..k + 1])
  {
    assert PrefixOf(r, cur, k + 1) <==> PrefixOf(r, cur, k) || r == cur[..k + 1];
  }

  /** The directory set after a part: the child is a directory unless it is the last part. */
  function Entered(directories: set<nat>, child: nat, k: nat, cur: Path): set<nat> {
    if k + 1 < |cur| then directories + {child} else directories
  }

  lemma NewNodeHolds(fold: string -> string, children: Edges, raws: seq<Path>, parents: seq<nat>,
                     directories: set<nat>, files: set<nat>, es: seq<Entry>, cur: Path, k: nat, n: nat)
    requires Holds(fold, children, raws, parents, directories, files, es, cur, k)
    requires n < |raws| && k < |cur| && raws[n] == cur[..k] && (n, fold(cur[k])) !in children
    ensures Holds(fold, children[(n, fold(cur[k])) := (|raws|, cur[k])], raws + [cur[..k + 1]], parents + [n],
                  Entered(directories, |raws|, k, cur), files, es, cur, k + 1)
  {
    var more, child := raws + [cur[..k + 1]], |raws|;
    NewNodeShape(fold, children, raws, parents, n, cur, k);
    AbsentEdgeIsNew(fold, children, raws, parents, n, cur, k);
    hide Shape, Folded, PrefixOf, Known, KnownFile, KnownDirectory, Parts;
    forall r | Known(es, cur, k + 1, r)
      ensures NodeOf(more, r)
    {
      KnownGrows(es, cur, k, r);
      if r == cur[..k + 1] {
        assert more[child] == r;
      } else {
        var m :| 1 <= m < |raws| && raws[m] == r;
        assert more[m] == r;
      }
    }
    forall m | 1 <= m < |more|
      ensures Known(es, cur, k + 1, more[m])
      ensures m in Entered(directories, child, k, cur) <==> KnownDirectory(es, cur, k + 1, more[m])
      ensures m in files <==> KnownFile(es, more[m])
    {
      KnownGrows(es, cur, k, more[m]);
      if m == child {
        NotKnownYet(fold, children, raws, parents, directories, files, es, cur, k);
      }
    }
  }

  /** A path with no node has not been seen in any role. */
  lemma NotKnownYet(fold: string -> string, children: Edges, raws: seq<Path>, parents: seq<nat>,
                    directories: set<nat>, files: set<nat>, es: seq<Entry>, cur: Path, k: nat)
    requires Holds(fold, children, raws, parents, directories, files, es, cur, k) && k < |cur|
    requires forall m :: 0 <= m < |raws| ==> Folded(fold, raws[m]) != Folded(fold, cur[..k + 1])
    ensures !Known(es, cur, k, cur[..k + 1]) && !KnownFile(es, cur[..k + 1])
      && !KnownDirectory(es, cur, k, cur[..k + 1])
  {
    var r := cur[..k + 1];
    assert !NodeOf(raws, r);
    FileIsKnown(es, cur, k, r);
  }

  lemma FileIsKnown(es: seq<Entry>, cur: Path, k: nat, r: Path)
    ensures KnownFile(es, r) ==> Known(es, cur, k, r)
    ensures KnownDirectory(es, cur, k, r) ==> Known(es, cur, k, r)
  {
    if KnownFile(es, r) {
      var i :| 0 <= i < |es| && !es[i].directory && Parts(es[i]) == r;
      assert r[..|r|] == r;
      assert PrefixOf(r, Parts(es[i]), |Parts(es[i])|);
    }
  }

  lemma ChildPath(fold: string -> string, children: Edges, raws: seq<Path>, parents: seq<nat>, n: nat, cur: Path,
                  k: nat)
    requires Shape(fold, children, raws, parents) && n < |raws| && k < |cur| && raws[n] == cur[..k]
    requires (n, fold(cur[k])) in children
    ensures var (child, part) := children[(n, fold(cur[k]))];
      1 <= child < |raws| && raws[child] == cur[..k] + [part] && fold(part) == fold(cur[k])
  {
    assert EdgeFits(fold, children, raws, (n, fold(cur[k])));
  }

  lemma OldNodeHolds(fold: string -> string, children: Edges, raws: seq<Path>, parents: seq<nat>,
                     directories: set<nat>, files: set<nat>, es: seq<Entry>, cur: Path, k: nat, child: nat)
    requires Holds(fold, children, raws, parents, directories, files, es, cur, k)
    requires k < |cur| && 1 <= child < |raws| && raws[child] == cur[..k + 1]
    ensures Holds(fold, children, raws, parents, Entered(directories, child, k, cur), files, es, cur, k + 1)
  {
    hide Shape, Folded, PrefixOf, Known, KnownFile, KnownDirectory, Parts;
    forall r | Known(es, cur, k + 1, r)
      ensures NodeOf(raws, r)
    {
      KnownGrows(es, cur, k, r);
    }
    forall m | 1 <= m < |raws|
      ensures Known(es, cur, k + 1, raws[m])
      ensures m in Entered(directories, child, k, cur) <==> KnownDirectory(es, cur, k + 1, raws[m])
    {
      KnownGrows(es, cur, k, raws[m]);
      if m != child {
        DistinctNodes(fold, children, raws, parents, m, child);
      }
    }
  }

  lemma DistinctNodes(fold: string -> string, children: Edges, raws: seq<Path>, parents: seq<nat>, m: nat, n: nat)
    requires Shape(fold, children, raws, parents) && m < |raws| && n < |raws|
    ensures Folded(fold, raws[m]) == Folded(fold, raws[n]) ==> m == n
    ensures raws[m] == raws[n] ==> m == n
  {
    if m < n {
      assert Folded(fold, raws[m]) != Folded(fold, raws[n]);
    } else if n < m {
      assert Folded(fold, raws[n]) != Folded(fold, raws[m]);
    }
  }

  // ----- when a step refuses, and what acceptance means

  ghost predicate Clashes(fold: string -> string, es: seq<Entry>, e: Entry) {
    exists i :: 0 <= i < |es| && !Compatible(fold, es[i], e)
  }

  lemma SpellingClash(fold: string -> string, children: Edges, raws: seq<Path>, parents: seq<nat>,
                      directories: set<nat>, files: set<nat>, es: seq<Entry>, e: Entry, k: nat, n: nat)
    requires Holds(fold, children, raws, parents, directories, files, es, Parts(e), k)
    requires n < |raws| && k < |Parts(e)| && raws[n] == Parts(e)[..k] && (n, fold(Parts(e)[k])) in children
    requires children[(n, fold(Parts(e)[k]))].1 != Parts(e)[k]
    ensures Clashes(fold, es, e)
  {
    var cur := Parts(e);
    var (child, part) := children[(n, fold(cur[k]))];
    ChildPath(fold, children, raws, parents, n, cur, k);
    var r := cur[..k] + [part];
    hide Parts, Shape;
    assert Known(es, cur, k, r);
    var i :| 0 <= i < |es| && PrefixOf(r, Parts(es[i]), |Parts(es[i])|);
    SameFold(fold, cur, k, part);
    assert Parts(es[i])[..k + 1] == r != cur[..k + 1];
    assert !SpelledAlike(fold, Parts(es[i]), cur);
  }

  lemma SameFold(fold: string -> string, cur: Path, k: nat, part: string)
    requires k < |cur| && fold(part) == fold(cur[k])
    ensures Folded(fold, cur[..k] + [part]) == Folded(fold, cur[..k + 1])
  {
    LastPart(cur, k);
    var r := cur[..k] + [part];
    assert r[..|r| - 1] == cur[..k] && r[|r| - 1] == part;
  }

  /** A regular file seen before lies at or above the path of e. */
  lemma FileClash(fold: string -> string, es: seq<Entry>, e: Entry, k: nat)
    requires k <= |Parts(e)| && KnownFile(es, Parts(e)[..k])
    ensures Clashes(fold, es, e)
  {
    hide Folded, Parts, SpelledAlike;
    var i :| 0 <= i < |es| && !es[i].directory && Parts(es[i]) == Parts(e)[..k];
    assert Parts(e)[..|Parts(es[i])|] == Parts(es[i]);
    assert Above(fold, Parts(es[i]), Parts(e));
    assert !Compatible(fold, es[i], e);
  }

  /** The path of the regular file e is a directory already. */
  lemma DirectoryClash(fold: string -> string, es: seq<Entry>, e: Entry)
    requires !e.directory && KnownDirectory(es, Parts(e), |Parts(e)|, Parts(e))
    ensures Clashes(fold, es, e)
  {
    hide Folded, SpelledAlike;
    var i :| 0 <= i < |es| && PrefixOf(Parts(e), Parts(es[i]), |Parts(es[i])|);
    assert PrefixOf(Parts(e), Parts(es[i]), |Parts(es[i])|);
    assert |Parts(e)| <= |Parts(es[i])|;
    assert Parts(es[i])[..|Parts(e)|] == Parts(e);
    assert Above(fold, Parts(e), Parts(es[i]));
    assert !Compatible(fold, es[i], e);
  }

  /** Paths known to the trie that fold alike are one node, so they are spelled alike. */
  lemma KnownAlike(fold: string -> string, children: Edges, raws: seq<Path>, parents: seq<nat>,
                   directories: set<nat>, files: set<nat>, es: seq<Entry>, cur: Path, k: nat, p: Path, q: Path)
    requires Holds(fold, children, raws, parents, directories, files, es, cur, k)
    requires Known(es, cur, k, p) && Known(es, cur, k, q) && Folded(fold, p) == Folded(fold, q)
    ensures p == q
  {
    hide Shape, Folded, Known;
    var m :| 1 <= m < |raws| && raws[m] == p;
    var n :| 1 <= n < |raws| && raws[n] == q;
    DistinctNodes(fold, children, raws, parents, m, n);
  }

  lemma PrefixesKnown(es: seq<Entry>, cur: Path, i: nat, j: nat)
    requires i < |es| && 1 <= j
    ensures j <= |Parts(es[i])| ==> Known(es, cur, |cur|, Parts(es[i])[..j])
    ensures j <= |cur| ==> Known(es, cur, |cur|, cur[..j])
  {
    if j <= |Parts(es[i])| {
      assert PrefixOf(Parts(es[i])[..j], Parts(es[i]), |Parts(es[i])|);
    }
    if j <= |cur| {
      assert PrefixOf(cur[..j], cur, |cur|);
    }
  }

  lemma AlikeSoFar(fold: string -> string, children: Edges, raws: seq<Path>, parents: seq<nat>,
                   directories: set<nat>, files: set<nat>, es: seq<Entry>, cur: Path, i: nat)
    requires Holds(fold, children, raws, parents, directories, files, es, cur, |cur|) && i < |es|
    ensures SpelledAlike(fold, Parts(es[i]), cur)
  {
    hide Holds, Folded, Parts;
    var p := Parts(es[i]);
    forall j | 1 <= j <= |p| && j <= |cur| && Folded(fold, p[..j]) == Folded(fold, cur[..j])
      ensures p[..j] == cur[..j]
    {
      PrefixesKnown(es, cur, i, j);
      KnownAlike(fold, children, raws, parents, directories, files, es, cur, |cur|, p[..j], cur[..j]);
    }
  }

  /** What passing every check of one entry establishes. */
  lemma NoClash(fold: string -> string, children: Edges, raws: seq<Path>, parents: seq<nat>,
                directories: set<nat>, files: set<nat>, es: seq<Entry>, e: Entry)
    requires Holds(fold, children, raws, parents, directories, files, es, Parts(e), |Parts(e)|)
    requires forall i :: 0 <= i < |es| ==> es[i].name != e.name
    requires forall j :: 1 <= j < |Parts(e)| ==> !KnownFile(es, Parts(e)[..j])
    requires e.directory || !KnownDirectory(es, Parts(e), |Parts(e)|, Parts(e))
    ensures forall i :: 0 <= i < |es| ==> Compatible(fold, es[i], e)
  {
    forall i | 0 <= i < |es|
      ensures Compatible(fold, es[i], e)
    {
      AlikeSoFar(fold, children, raws, parents, directories, files, es, Parts(e), i);
      hide Holds;
      CompatibleWith(fold, es, i, e);
    }
  }

  lemma FileAbove(fold: string -> string, es: seq<Entry>, i: nat, q: Path)
    requires i < |es| && !es[i].directory && SpelledAlike(fold, Parts(es[i]), q) && Above(fold, Parts(es[i]), q)
    ensures Parts(es[i]) == q[..|Parts(es[i])|] && KnownFile(es, q[..|Parts(es[i])|])
  {
    var p := Parts(es[i]);
    assert p[..|p|] == p;
  }

  lemma DirectoryBelow(fold: string -> string, es: seq<Entry>, i: nat, q: Path)
    requires i < |es| && q != [] && SpelledAlike(fold, Parts(es[i]), q) && Above(fold, q, Parts(es[i]))
      && Parts(es[i]) != q
    ensures KnownDirectory(es, q, |q|, q)
  {
    var p := Parts(es[i]);
    assert q[..|q|] == q;
    assert q == p[..|q|];
    assert p[..|p|] == p;
    assert PrefixOf(q, p, |p| - 1);
  }

  lemma CompatibleWith(fold: string -> string, es: seq<Entry>, i: nat, e: Entry)
    requires i < |es| && es[i].name != e.name && SpelledAlike(fold, Parts(es[i]), Parts(e))
    requires forall j :: 1 <= j < |Parts(e)| ==> !KnownFile(es, Parts(e)[..j])
    requires e.directory || !KnownDirectory(es, Parts(e), |Parts(e)|, Parts(e))
    ensures Compatible(fold, es[i], e)
  {
    var p, q := Parts(es[i]), Parts(e);
    assert p != q by {
      if p == q {
        SameParts(es[i], e);
      }
    }
    assert q[..|q|] == q;
    hide Folded, KnownFile, KnownDirectory, SpelledAlike, Parts;
    if !es[i].directory && Above(fold, p, q) {
      FileAbove(fold, es, i, q);
    }
    if !e.directory && Above(fold, q, p) {
      DirectoryBelow(fold, es, i, q);
    }
  }

  /** After its last part the entry joins those seen. */
  lemma EntryJoins(fold: string -> string, children: Edges, raws: seq<Path>, parents: seq<nat>,
                   directories: set<nat>, files: set<nat>, es: seq<Entry>, e: Entry, n: nat)
    requires Holds(fold, children, raws, parents, directories, files, es, Parts(e), |Parts(e)|)
    requires 1 <= n < |raws| && raws[n] == Parts(e)
    ensures Holds(fold, children, raws, parents, if e.directory then directories + {n} else directories,
                  if e.directory then files else files + {n}, es + [e], [], 0)
  {
    var more := es + [e];
    hide Shape, Folded, PrefixOf, Known, KnownFile, KnownDirectory, Parts;
    forall r: Path
      ensures Known(more, [], 0, r) <==> Known(es, Parts(e), |Parts(e)|, r)
      ensures KnownFile(more, r) <==> KnownFile(es, r) || (!e.directory && r == Parts(e))
      ensures KnownDirectory(more, [], 0, r) <==>
          KnownDirectory(es, Parts(e), |Parts(e)|, r)
          || (e.directory && r == Parts(e))
    {
      JoinedKnown(es, e, r);
    }
    forall m | 1 <= m < |raws|
      ensures raws[m] == Parts(e) <==> m == n
    {
      DistinctNodes(fold, children, raws, parents, m, n);
    }
  }

  lemma JoinedKnown(es: seq<Entry>, e: Entry, r: Path)
    ensures Known(es + [e], [], 0, r) <==> Known(es, Parts(e), |Parts(e)|, r)
    ensures KnownFile(es + [e], r) <==> KnownFile(es, r) || (!e.directory && r == Parts(e))
    ensures KnownDirectory(es + [e], [], 0, r) <==>
      KnownDirectory(es, Parts(e), |Parts(e)|, r) || (e.directory && r == Parts(e))
  {
    hide Parts;
    var more := es + [e];
    assert more[|es|] == e;
    assert forall i :: 0 <= i < |es| ==> more[i] == es[i];
    assert PrefixOf(r, Parts(e), |Parts(e)|) <==> PrefixOf(r, Parts(e), |Parts(e)| - 1) || r == Parts(e);
  }

  // ----- where the local records lie

  /** No two local records share a byte, and all end before the central directory. */
  ghost predicate Disjoint(es: seq<Entry>, limit: nat) {
    && (forall i :: 0 <= i < |es| ==> es[i].end <= limit)
    && (forall i, j :: 0 <= i < j < |es| ==> es[i].end <= es[j].start || es[j].end <= es[i].start)
  }

  /** A local header alone takes thirty bytes. */
  predicate Sized(es: seq<Entry>) {
    forall i :: 0 <= i < |es| ==> es[i].start + HEADER_BYTES <= es[i].end
  }

  function Insert(xs: seq<nat>, x: nat): seq<nat> {
    if xs == [] || x <= xs[0] then [x] + xs else [xs[0]] + Insert(xs[1..], x)
  }

  /** `sorted` of the header offsets. */
  function SortedStarts(es: seq<Entry>): (xs: seq<nat>)
    ensures |xs| == |es|
  {
    if es == [] then []
    else
      InsertLength(SortedStarts(es[1..]), es[0].start);
      Insert(SortedStarts(es[1..]), es[0].start)
  }

  lemma {:induction false} InsertLength(xs: seq<nat>, x: nat)
    ensures |Insert(xs, x)| == |xs| + 1
  {
    if xs != [] && x > xs[0] {
      InsertLength(xs[1..], x);
    }
  }

  predicate Ascending(xs: seq<nat>) {
    forall i, j :: 0 <= i < j < |xs| ==> xs[i] <= xs[j]
  }

  lemma {:induction false} InsertKeeps(xs: seq<nat>, x: nat)
    ensures multiset(Insert(xs, x)) == multiset(xs) + multiset{x}
  {
    if xs != [] && x > xs[0] {
      InsertKeeps(xs[1..], x);
      assert xs == [xs[0]] + xs[1..];
    }
  }

  lemma PrependAscending(x: nat, xs: seq<nat>)
    requires Ascending(xs) && forall y :: y in xs ==> x <= y
    ensures Ascending([x] + xs)
  {
    assert forall j :: 0 <= j < |xs| ==> xs[j] in xs;
  }

  lemma {:induction false} InsertAscending(xs: seq<nat>, x: nat)
    requires Ascending(xs)
    ensures Ascending(Insert(xs, x))
  {
    InsertKeeps(xs, x);
    if xs == [] || x <= xs[0] {
      PrependAscending(x, xs);
    } else {
      InsertAscending(xs[1..], x);
      InsertKeeps(xs[1..], x);
      var more := Insert(xs[1..], x);
      hide Insert;
      forall y | y in more
        ensures xs[0] <= y
      {
        assert y in multiset(more);
        assert y == x || y in xs[1..];
      }
      hide Ascending;
      PrependAscending(xs[0], more);
    }
  }

  function Starts(es: seq<Entry>): (xs: seq<nat>)
    ensures |xs| == |es| && forall i :: 0 <= i < |es| ==> xs[i] == es[i].start
  {
    seq(|es|, i requires 0 <= i < |es| => es[i].start)
  }

  lemma {:induction false} StartsSorted(es: seq<Entry>)
    ensures Ascending(SortedStarts(es)) && multiset(SortedStarts(es)) == multiset(Starts(es))
  {
    if es != [] {
      StartsSorted(es[1..]);
      InsertAscending(SortedStarts(es[1..]), es[0].start);
      InsertKeeps(SortedStarts(es[1..]), es[0].start);
      assert Starts(es) == [es[0].start] + Starts(es[1..]);
    }
  }

  /** b is the first start after x, or the limit when there is none. */
  ghost predicate NextAfter(es: seq<Entry>, limit: nat, x: nat, b: nat) {
    && (b == limit || exists j :: 0 <= j < |es| && es[j].start == b > x)
    && b <= limit
    && forall j :: 0 <= j < |es| && es[j].start > x ==> b <= es[j].start
  }

  lemma {:induction false} CountedTwice(s: seq<nat>, x: nat)
    requires multiset(s)[x] >= 2
    ensures exists i, j :: 0 <= i < j < |s| && s[i] == x && s[j] == x
  {
    assert s == [s[0]] + s[1..];
    if s[0] == x {
      assert x in multiset(s[1..]);
      var j :| 0 <= j < |s[1..]| && s[1..][j] == x;
      assert s[j + 1] == x;
    } else {
      CountedTwice(s[1..], x);
      var i, j :| 0 <= i < j < |s[1..]| && s[1..][i] == x && s[1..][j] == x;
      assert s[i + 1] == x && s[j + 1] == x;
    }
  }

  lemma TwiceCounted(s: seq<nat>, i: nat, j: nat)
    requires i < j < |s| && s[i] == s[j]
    ensures multiset(s)[s[i]] >= 2
  {
    assert s == s[..j] + [s[j]] + s[j + 1..];
    assert s[i] in s[..j];
  }

  /** Sorted, equal starts stand next to each other. */
  lemma TwinsAdjacent(es: seq<Entry>, xs: seq<nat>)
    requires Ascending(xs) && multiset(xs) == multiset(Starts(es))
    ensures (exists k :: 0 < k < |xs| && xs[k - 1] == xs[k]) <==>
        (exists i, j :: 0 <= i < j < |es| && es[i].start == es[j].start)
  {
    if k :| 0 < k < |xs| && xs[k - 1] == xs[k] {
      TwiceCounted(xs, k - 1, k);
      CountedTwice(Starts(es), xs[k]);
    }
    if i, j :| 0 <= i < j < |es| && es[i].start == es[j].start {
      TwiceCounted(Starts(es), i, j);
      CountedTwice(xs, es[i].start);
      var m, n :| 0 <= m < n < |xs| && xs[m] == es[i].start && xs[n] == es[i].start;
      assert xs[m + 1] == xs[m];
    }
  }

  lemma SameMembers(es: seq<Entry>, xs: seq<nat>)
    requires multiset(xs) == multiset(Starts(es))
    ensures forall i :: 0 <= i < |es| ==> es[i].start in xs
    ensures forall k :: 0 <= k < |xs| ==> exists i :: 0 <= i < |es| && es[i].start == xs[k]
  {
    forall i | 0 <= i < |es|
      ensures es[i].start in xs
    {
      assert Starts(es)[i] in multiset(xs);
    }
    forall k | 0 <= k < |xs|
      ensures exists i :: 0 <= i < |es| && es[i].start == xs[k]
    {
      assert xs[k] in multiset(Starts(es));
      var i :| 0 <= i < |Starts(es)| && Starts(es)[i] == xs[k];
    }
  }

  function BoundaryAt(xs: seq<nat>, limit: nat, k: nat): nat
    requires k < |xs|
  {
    if k + 1 < |xs| then xs[k + 1] else limit
  }

  lemma NextInOrder(es: seq<Entry>, limit: nat, xs: seq<nat>, k: nat)
    requires Ascending(xs) && multiset(xs) == multiset(Starts(es)) && k < |xs|
    requires ApartAt(xs, limit)
    ensures NextAfter(es, limit, xs[k], BoundaryAt(xs, limit, k))
  {
    SameMembers(es, xs);
    forall j | 0 <= j < |es| && es[j].start > xs[k]
      ensures BoundaryAt(xs, limit, k) <= es[j].start
    {
      var m :| 0 <= m < |xs| && xs[m] == es[j].start;
      assert m > k;
    }
    if k + 1 < |xs| {
      assert xs[k + 1 - 1] != xs[k + 1];
    }
  }

  /** Headers start at different places before the central directory. */
  ghost predicate StartsApart(es: seq<Entry>, limit: nat) {
    && (forall i, j :: 0 <= i < j < |es| ==> es[i].start != es[j].start)
    && (forall i :: 0 <= i < |es| ==> es[i].start < limit)
  }

  /** The boundary every local record must end before: the next header, or the central directory. */
  method Boundaries(es: seq<Entry>, limit: nat) returns (r: Option<map<nat, nat>>)
    ensures r.None? <==> !StartsApart(es, limit)
    ensures r.Some? ==>
      forall i :: 0 <= i < |es| ==> es[i].start in r.value && NextAfter(es, limit, es[i].start, r.value[es[i].start])
  {
    var offsets := SortedStarts(es);
    StartsSorted(es);
    ApartInOrder(es, limit, offsets);
    hide SortedStarts, Ascending, NextAfter, StartsApart;
    if !ApartAt(offsets, limit) {
      return None;
    }
    var next: map<nat, nat> := map[];
    for k := 0 to |offsets|
      invariant forall x :: x in offsets[..k] ==> x in next
      invariant forall x :: x in next ==> NextAfter(es, limit, x, next[x])
    {
      NextInOrder(es, limit, offsets, k);
      assert offsets[..k + 1] == offsets[..k] + [offsets[k]];
      next := next[offsets[k] := BoundaryAt(offsets, limit, k)];
    }
    SameMembers(es, offsets);
    assert offsets[..|offsets|] == offsets;
    return Some(next);
  }

  /** The check on the sorted offsets. */
  predicate ApartAt(xs: seq<nat>, limit: nat) {
    && (forall k :: 0 < k < |xs| ==> xs[k - 1] != xs[k])
    && (forall k :: 0 <= k < |xs| ==> xs[k] < limit)
  }

  lemma ApartInOrder(es: seq<Entry>, limit: nat, xs: seq<nat>)
    requires Ascending(xs) && multiset(xs) == multiset(Starts(es))
    ensures ApartAt(xs, limit) <==> StartsApart(es, limit)
  {
    TwinsAdjacent(es, xs);
    SameMembers(es, xs);
  }

  /** Ending before the next header everywhere is the same as never overlapping. */
  lemma DisjointByNeighbours(es: seq<Entry>, limit: nat)
    requires Sized(es)
    ensures Disjoint(es, limit) <==>
      && (forall i :: 0 <= i < |es| ==> es[i].end <= limit)
      && (forall i, j :: 0 <= i < |es| && 0 <= j < |es| && es[j].start > es[i].start ==> es[i].end <= es[j].start)
      && (forall i, j :: 0 <= i < j < |es| ==> es[i].start != es[j].start)
  {
  }

  // ----- the index

  lemma LayoutBefore(es: seq<Entry>, limit: nat)
    requires Sized(es)
    ensures Disjoint(es, limit) ==> StartsApart(es, limit)
  {
  }

  lemma OverNext(es: seq<Entry>, limit: nat, n: nat, b: nat)
    requires Sized(es) && n < |es| && NextAfter(es, limit, es[n].start, b) && es[n].end > b
    ensures !Disjoint(es, limit)
  {
    DisjointByNeighbours(es, limit);
  }

  lemma LayoutAfter(es: seq<Entry>, limit: nat, next: map<nat, nat>)
    requires Sized(es) && StartsApart(es, limit)
    requires forall i :: 0 <= i < |es| ==> es[i].start in next && NextAfter(es, limit, es[i].start, next[es[i].start])
    requires forall i :: 0 <= i < |es| ==> es[i].end <= next[es[i].start]
    ensures Disjoint(es, limit)
  {
    DisjointByNeighbours(es, limit);
  }

  lemma NodeShape(fold: string -> string, children: Edges, raws: seq<Path>, parents: seq<nat>,
                  directories: set<nat>, files: set<nat>, es: seq<Entry>, cur: Path, k: nat)
    requires Holds(fold, children, raws, parents, directories, files, es, cur, k)
    ensures Shape(fold, children, raws, parents)
  {
  }

  lemma FileNodes(fold: string -> string, children: Edges, raws: seq<Path>, parents: seq<nat>,
                  directories: set<nat>, files: set<nat>, es: seq<Entry>, cur: Path, k: nat, n: nat)
    requires Holds(fold, children, raws, parents, directories, files, es, cur, k)
    requires n < |raws| && k <= |cur| && raws[n] == cur[..k]
    ensures k > 0 ==>
        (n in files <==> KnownFile(es, cur[..k]))
        && (n in directories <==> KnownDirectory(es, cur, k, cur[..k]))
    ensures k == 0 ==> n == 0 && n !in files
  {
    if k == 0 {
      DistinctNodes(fold, children, raws, parents, 0, n);
    }
  }

  function Total(es: seq<Entry>): nat {
    if es == [] then 0 else Total(es[..|es| - 1]) + es[|es| - 1].size
  }

  lemma {:induction false} TotalGrows(es: seq<Entry>, n: nat)
    requires n <= |es|
    ensures Total(es[..n]) <= Total(es)
    decreases |es|
  {
    if n < |es| {
      var init := es[..|es| - 1];
      TotalGrows(init, n);
      assert init[..n] == es[..n];
    } else {
      assert es[..n] == es;
    }
  }

  /** The `mimetype` entry opens the container, without an extra field. */
  predicate EntryFits(e: Entry) {
    && (e.name == "mimetype" ==> e.start == 0 && e.extra == 0)
    && e.size <= MAX_ENTRY_BYTES
  }

  ghost predicate Acceptable(fold: string -> string, es: seq<Entry>, limit: nat) {
    && 0 < |es| <= MAX_ENTRIES && Disjoint(es, limit) && NamesAgree(fold, es)
    && (forall i :: 0 <= i < |es| ==> EntryFits(es[i])) && Total(es) <= MAX_TOTAL_BYTES
  }

  /** The regular files by name. */
  ghost predicate Indexes(index: map<string, Entry>, es: seq<Entry>) {
    && (forall i :: 0 <= i < |es| && !es[i].directory ==> es[i].name in index && index[es[i].name] == es[i])
    && (forall name :: name in index ==> exists i :: 0 <= i < |es| && !es[i].directory && es[i].name == name)
  }

  ghost predicate Clean(fold: string -> string, es: seq<Entry>, n: nat)
    requires n <= |es|
  {
    && NamesAgree(fold, es[..n])
    && (forall i :: 0 <= i < n ==> EntryFits(es[i])) && Total(es[..n]) <= MAX_TOTAL_BYTES
  }

  lemma NewcomerClashes(fold: string -> string, es: seq<Entry>, n: nat)
    requires n < |es| && Clashes(fold, es[..n], es[n])
    ensures !NamesAgree(fold, es)
  {
    hide Compatible;
    var i :| 0 <= i < n && !Compatible(fold, es[..n][i], es[n]);
    assert !Compatible(fold, es[i], es[n]);
  }

  lemma SameNameClashes(fold: string -> string, es: seq<Entry>, e: Entry, i: nat)
    requires i < |es| && es[i].name == e.name
    ensures Clashes(fold, es, e)
  {
    assert !Compatible(fold, es[i], e);
  }

  /** The trie of no entries. */
  lemma EmptyHolds(fold: string -> string)
    ensures Holds(fold, map[], [[]], [0], {}, {}, [], [], 0)
  {
  }

  lemma StartsPath(fold: string -> string, children: Edges, raws: seq<Path>, parents: seq<nat>,
                   directories: set<nat>, files: set<nat>, es: seq<Entry>, cur: Path)
    requires Holds(fold, children, raws, parents, directories, files, es, [], 0)
    ensures Holds(fold, children, raws, parents, directories, files, es, cur, 0)
    ensures raws != [] && raws[0] == []
  {
    assert raws != [] && raws[0] == [];
    hide Shape, KnownFile, Parts;
    assert forall r :: Known(es, cur, 0, r) <==> Known(es, [], 0, r);
    assert forall r :: KnownDirectory(es, cur, 0, r) <==> KnownDirectory(es, [], 0, r);
  }

  /** The inner loop: one entry's parts down the trie, making the nodes it lacks; None when a part is refused. */
  method AddPath(fold: string -> string, ghost es: seq<Entry>, e: Entry, children0: Edges, directories0: set<nat>,
                 files: set<nat>, nodes0: nat, ghost raws0: seq<Path>, ghost parents0: seq<nat>)
    returns (end: Option<nat>, children: Edges, directories: set<nat>, nodes: nat, ghost raws: seq<Path>,
             ghost parents: seq<nat>)
    requires Holds(fold, children0, raws0, parents0, directories0, files, es, [], 0) && nodes0 == |raws0|
    ensures end.None? ==> Clashes(fold, es, e)
    ensures end.Some? ==>
      && Holds(fold, children, raws, parents, directories, files, es, Parts(e), |Parts(e)|)
      && nodes == |raws| && 1 <= end.value < |raws| && raws[end.value] == Parts(e)
      && forall j :: 1 <= j < |Parts(e)| ==> !KnownFile(es, Parts(e)[..j])
  {
    hide Shape, Holds, Compatible, Folded, KnownFile, KnownDirectory, Known, PrefixOf;
    children, directories, nodes, raws, parents := children0, directories0, nodes0, raws0, parents0;
    var cur := Parts(e);
    var node: nat := 0;
    StartsPath(fold, children, raws, parents, directories, files, es, cur);
    for k := 0 to |cur|
      invariant Holds(fold, children, raws, parents, directories, files, es, cur, k) && nodes == |raws|
      invariant node < |raws| && raws[node] == cur[..k] && (k > 0 ==> node > 0)
      invariant forall j :: 1 <= j < k ==> !KnownFile(es, cur[..j])
    {
      FileNodes(fold, children, raws, parents, directories, files, es, cur, k, node);
      if node in files {
        FileClash(fold, es, e, k);
        return None, children, directories, nodes, raws, parents;
      }
      var edge := (node, fold(cur[k]));
      LastPart(cur, k);
      if edge !in children {
        NewNodeHolds(fold, children, raws, parents, directories, files, es, cur, k, node);
        raws, parents := raws + [cur[..k + 1]], parents + [node];
        children := children[edge := (nodes, cur[k])];
        node := nodes;
        nodes := nodes + 1;
      } else {
        NodeShape(fold, children, raws, parents, directories, files, es, cur, k);
        ChildPath(fold, children, raws, parents, node, cur, k);
        if children[edge].1 != cur[k] {
          SpellingClash(fold, children, raws, parents, directories, files, es, e, k, node);
          return None, children, directories, nodes, raws, parents;
        }
        node := children[edge].0;
        OldNodeHolds(fold, children, raws, parents, directories, files, es, cur, k, node);
      }
      if k + 1 < |cur| {
        FileNodes(fold, children, raws, parents, Entered(directories, node, k, cur), files, es, cur, k + 1, node);
        if node in files {
          FileClash(fold, es, e, k + 1);
          return None, children, directories, nodes, raws, parents;
        }
        directories := directories + {node};
      }
    }
    assert cur[..|cur|] == cur;
    return Some(node), children, directories, nodes, raws, parents;
  }

  lemma EmptyClean(fold: string -> string, es: seq<Entry>)
    ensures Clean(fold, es, 0) && Total(es[..0]) == 0 && Indexes(map[], es[..0])
  {
  }

  lemma CleanStep(fold: string -> string, es: seq<Entry>, n: nat)
    requires n < |es| && Clean(fold, es, n) && EntryFits(es[n]) && Total(es[..n + 1]) <= MAX_TOTAL_BYTES
    requires forall i :: 0 <= i < n ==> Compatible(fold, es[..n][i], es[n])
    ensures Clean(fold, es, n + 1)
  {
    hide Compatible;
    var more := es[..n + 1];
    forall i, j | 0 <= i < j < |more|
      ensures Compatible(fold, more[i], more[j])
    {
      assert es[..n][i] == more[i];
      if j < n {
        assert Compatible(fold, es[..n][i], es[..n][j]);
      }
    }
  }

  lemma CleanAll(fold: string -> string, es: seq<Entry>)
    requires Clean(fold, es, |es|)
    ensures NamesAgree(fold, es) && (forall i :: 0 <= i < |es| ==> EntryFits(es[i])) && Total(es) <= MAX_TOTAL_BYTES
  {
    assert es[..|es|] == es;
  }

  lemma TotalStep(es: seq<Entry>, n: nat)
    requires n < |es|
    ensures Total(es[..n + 1]) == Total(es[..n]) + es[n].size
  {
    assert es[..n + 1][..n] == es[..n];
  }

  lemma IndexStep(index: map<string, Entry>, es: seq<Entry>, n: nat)
    requires n < |es| && Indexes(index, es[..n]) && forall i :: 0 <= i < n ==> es[i].name != es[n].name
    ensures Indexes(if es[n].directory then index else index[es[n].name := es[n]], es[..n + 1])
  {
    assert forall i :: 0 <= i < n ==> es[..n][i] == es[..n + 1][i];
    assert es[..n + 1][n] == es[n];
  }

  /** `_archive_index`: one pass over the entries accepts exactly the archives every two of whose entries agree. */
  method ArchiveIndex(fold: string -> string, es: seq<Entry>, limit: nat) returns (r: Option<map<string, Entry>>)
    requires Sized(es)
    ensures r.Some? <==> Acceptable(fold, es, limit)
    ensures r.Some? ==> Indexes(r.value, es)
  {
    hide Shape, Holds, Compatible, Parts, Folded, KnownFile, KnownDirectory, NextAfter, Disjoint, Clashes, NamesAgree,
      Clean, Indexes, Total;
    if es == [] || |es| > MAX_ENTRIES {
      return None;
    }
    var next := Boundaries(es, limit);
    LayoutBefore(es, limit);
    if next.None? {
      return None;
    }
    var index: map<string, Entry> := map[];
    var seen: set<string> := {};
    var children: Edges, directories: set<nat>, files: set<nat> := map[], {}, {};
    var nodes, total := 1, 0;
    ghost var raws: seq<Path>, parents: seq<nat> := [[]], [0];
    EmptyHolds(fold);
    EmptyClean(fold, es);
    for n := 0 to |es|
      invariant Holds(fold, children, raws, parents, directories, files, es[..n], [], 0) && nodes == |raws|
      invariant forall i :: 0 <= i < n ==> es[i].end <= next.value[es[i].start]
      invariant forall name :: name in seen <==> exists i :: 0 <= i < n && es[i].name == name
      invariant Clean(fold, es, n) && total == Total(es[..n]) && Indexes(index, es[..n])
    {
      var e := es[n];
      ghost var before := es[..n];
      assert es[..n + 1] == before + [e];
      if e.end > next.value[e.start] {
        OverNext(es, limit, n, next.value[e.start]);
        return None;
      }
      if e.name == "mimetype" && (e.start != 0 || e.extra != 0) {
        return None;
      }
      if e.name in seen {
        var i :| 0 <= i < n && es[i].name == e.name;
        SameNameClashes(fold, before, e, i);
        NewcomerClashes(fold, es, n);
        return None;
      }
      seen := seen + {e.name};
      var node;
      node, children, directories, nodes, raws, parents :=
        AddPath(fold, before, e, children, directories, files, nodes, raws, parents);
      if node.None? {
        NewcomerClashes(fold, es, n);
        return None;
      }
      var cur := Parts(e);
      assert cur[..|cur|] == cur;
      FileNodes(fold, children, raws, parents, directories, files, before, cur, |cur|, node.value);
      if if e.directory then node.value in files else node.value in directories {
        if e.directory {
          FileClash(fold, before, e, |cur|);
        } else {
          DirectoryClash(fold, before, e);
        }
        NewcomerClashes(fold, es, n);
        return None;
      }
      NoClash(fold, children, raws, parents, directories, files, before, e);
      EntryJoins(fold, children, raws, parents, directories, files, before, e, node.value);
      if e.directory {
        directories := directories + {node.value};
      } else {
        files := files + {node.value};
      }
      if e.size > MAX_ENTRY_BYTES {
        return None;
      }
      total := total + e.size;
      TotalStep(es, n);
      TotalGrows(es, n + 1);
      if total > MAX_TOTAL_BYTES {
        return None;
      }
      CleanStep(fold, es, n);
      IndexStep(index, es, n);
      if !e.directory {
        index := index[e.name := e];
      }
    }
    assert es[..|es|] == es;
    LayoutAfter(es, limit, next.value);
    CleanAll(fold, es);
    return Some(index);
  }

  /** So in an accepted archive no two entries' whole paths fold alike. */
  lemma FoldedNamesDiffer(fold: string -> string, es: seq<Entry>, i: nat, j: nat)
    requires NamesAgree(fold, es) && i < j < |es|
    ensures Folded(fold, Parts(es[i])) != Folded(fold, Parts(es[j]))
  {
    var p, q := Parts(es[i]), Parts(es[j]);
    assert p[..|p|] == p && q[..|q|] == q;
    assert Compatible(fold, es[i], es[j]);
    if p == q {
      SameParts(es[i], es[j]);
    }
  }

  // ----- what agreement means for the names as they are written

  /** The parts between the slashes of a name. */
  predicate Spells(name: string, p: Path) {
    p != [] && (forall part :: part in p ==> '/' !in part) && JoinWith(p, '/') == name
  }

  lemma {:induction false} SplitPlain(s: string, sep: char)
    ensures forall part :: part in SplitOn(s, sep) ==> sep !in part
  {
    if s != [] {
      SplitPlain(s[1..], sep);
      var ps := SplitOn(s[1..], sep);
      assert ps[0] in ps;
    }
  }

  lemma SpellingIsSplit(e: Entry, p: Path)
    ensures Spells(e.name, p) <==> p == Parts(e)
  {
    if Spells(e.name, p) {
      SplitOfJoin(p, '/');
    }
    SplitPlain(e.name, '/');
    JoinOfSplit(e.name, '/');
  }

  /** The first k parts of p and q fold alike. */
  predicate FoldAlike(fold: string -> string, p: Path, q: Path, k: nat) {
    k <= |p| && k <= |q| && forall l :: 0 <= l < k ==> fold(p[l]) == fold(q[l])
  }

  lemma {:induction false} FoldedAlike(fold: string -> string, p: Path, q: Path, k: nat)
    requires k <= |p| && k <= |q|
    ensures Folded(fold, p[..k]) == Folded(fold, q[..k]) <==> FoldAlike(fold, p, q, k)
    decreases k
  {
    if k > 0 {
      FoldedAlike(fold, p, q, k - 1);
      assert p[..k][..k - 1] == p[..k - 1] && q[..k][..k - 1] == q[..k - 1];
      var x, y := Folded(fold, p[..k]), Folded(fold, q[..k]);
      assert x == Folded(fold, p[..k - 1]) + [fold(p[k - 1])] && y == Folded(fold, q[..k - 1]) + [fold(q[k - 1])];
      if x == y {
        assert x[..k - 1] == Folded(fold, p[..k - 1]) && y[..k - 1] == Folded(fold, q[..k - 1]);
        assert x[k - 1] == y[k - 1];
      }
    }
  }

  /** Where the two names begin with parts that fold alike, they are written alike; and if all of the first name's do,
      it is shorter and names a directory. */
  ghost predicate Clear(fold: string -> string, a: Entry, p: Path, q: Path) {
    && (forall k: nat :: FoldAlike(fold, p, q, k) ==> p[..k] == q[..k])
    && (FoldAlike(fold, p, q, |p|) ==> |p| < |q| && a.directory)
  }

  lemma CompatibleIsClear(fold: string -> string, a: Entry, b: Entry, p: Path, q: Path)
    requires Spells(a.name, p) && Spells(b.name, q)
    ensures Compatible(fold, a, b) <==> Clear(fold, a, p, q) && Clear(fold, b, q, p)
  {
    SpellingIsSplit(a, p);
    SpellingIsSplit(b, q);
    assert a.name == b.name ==> p == q;
    hide Parts, Folded, Spells;
    forall k: nat | k <= |p| && k <= |q|
      ensures Folded(fold, p[..k]) == Folded(fold, q[..k]) <==> FoldAlike(fold, p, q, k)
      ensures FoldAlike(fold, p, q, k) <==> FoldAlike(fold, q, p, k)
    {
      FoldedAlike(fold, p, q, k);
    }
    assert p[..|p|] == p && q[..|q|] == q;
    if Compatible(fold, a, b) && |p| == |q| && FoldAlike(fold, p, q, |p|) {
      assert p[..|p|] == q[..|p|];
      SameParts(a, b);
    }
    SpelledExactly(fold, p, q);
    SpelledExactly(fold, q, p);
    AboveExactly(fold, p, q);
    AboveExactly(fold, q, p);
  }

  lemma AboveExactly(fold: string -> string, p: Path, q: Path)
    ensures Above(fold, p, q) <==> FoldAlike(fold, p, q, |p|)
  {
    if |p| <= |q| {
      FoldedAlike(fold, p, q, |p|);
      assert p[..|p|] == p;
    }
  }

  lemma SpelledExactly(fold: string -> string, p: Path, q: Path)
    ensures SpelledAlike(fold, p, q) <==> forall k: nat :: FoldAlike(fold, p, q, k) ==> p[..k] == q[..k]
  {
    forall k: nat | k <= |p| && k <= |q|
      ensures Folded(fold, p[..k]) == Folded(fold, q[..k]) <==> FoldAlike(fold, p, q, k)
    {
      FoldedAlike(fold, p, q, k);
    }
    hide Folded, FoldAlike;
    assert p[..0] == q[..0];
  }

  /** p spells the name of the i-th entry. */
  predicate Named(es: seq<Entry>, i: int, p: Path) {
    0 <= i < |es| && Spells(es[i].name, p)
  }

  /** Two names that begin with parts folding alike begin alike, and no file's name is, however it is folded, another
      entry's name or the name of a directory above one. */
  ghost predicate AllClear(fold: string -> string, es: seq<Entry>) {
    forall i, j, p, q :: i != j && Named(es, i, p) && Named(es, j, q) ==> Clear(fold, es[i], p, q)
  }

  /** That is what the names of an accepted archive meet. */
  lemma NamesAgreeExactly(fold: string -> string, es: seq<Entry>)
    ensures NamesAgree(fold, es) <==> AllClear(fold, es)
  {
    hide Compatible, Clear, Spells, Parts;
    if NamesAgree(fold, es) {
      forall i, j, p, q | i != j && Named(es, i, p) && Named(es, j, q)
        ensures Clear(fold, es[i], p, q)
      {
        if i < j {
          assert Compatible(fold, es[i], es[j]);
          CompatibleIsClear(fold, es[i], es[j], p, q);
        } else {
          assert Compatible(fold, es[j], es[i]);
          CompatibleIsClear(fold, es[j], es[i], q, p);
        }
      }
    }
    if AllClear(fold, es) {
      forall i, j | 0 <= i < j < |es|
        ensures Compatible(fold, es[i], es[j])
      {
        SpellingIsSplit(es[i], Parts(es[i]));
        SpellingIsSplit(es[j], Parts(es[j]));
        assert Named(es, i, Parts(es[i])) && Named(es, j, Parts(es[j]));
        CompatibleIsClear(fold, es[i], es[j], Parts(es[i]), Parts(es[j]));
      }
    }
  }
}
