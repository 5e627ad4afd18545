/** The durable reading cursor (acs/bookreader.py over acs/book_index.py): blocks are named by keys, progress is saved
    as keys, and restoring it into another revision of the book finds the same blocks or fails. */
module Reader {
  import opened Base
  import opened Text

  const MAX_KEY_CHARS := 4096
  const MAX_POINTS := 1000
  const MAX_NAME_CHARS := 256

  datatype Kind = Heading(level: nat) | Position | Game | Reading

  /** A block of a book; an empty id or anchor counts as none. */
  datatype Block = Block(kind: Kind, text: string, id: string, anchor: string)

  type Book = seq<Block>

  // ----- keys

  /** `_target`. */
  function Key(i: nat, b: Block): string {
    if b.id != "" then "block:" + b.id
    else if b.anchor != "" then "source:" + b.anchor
    else "index:" + Decimal(i)
  }

  /** An id or anchor too long for a key makes the book unreadable. */
  predicate Indexable(book: Book) {
    forall i :: 0 <= i < |book| && (book[i].id != "" || book[i].anchor != "") ==> |Key(i, book[i])| <= MAX_KEY_CHARS
  }

  predicate IsIndexKey(key: string) {
    |key| >= 6 && key[..6] == "index:"
  }

  /** What equal keys say about two blocks, of one book or of two revisions. */
  predicate SameBlock(i: nat, a: Block, j: nat, b: Block) {
    if a.id != "" then b.id == a.id
    else b.id == "" && (if a.anchor != "" then b.anchor == a.anchor else b.anchor == "" && i == j)
  }

  lemma KeyTells(i: nat, a: Block, j: nat, b: Block)
    ensures Key(i, a) == Key(j, b) <==> SameBlock(i, a, j, b)
    ensures IsIndexKey(Key(i, a)) <==> a.id == "" && a.anchor == ""
  {
    var s, t := Key(i, a), Key(j, b);
    KeyShape(i, a);
    KeyShape(j, b);
    if s == t && a.id == "" && a.anchor == "" {
      NumberOfDecimal(i);
      NumberOfDecimal(j);
    }
  }

  lemma KeyShape(i: nat, b: Block)
    ensures var s := Key(i, b);
      && |s| >= 6 && (s[0] == 'b' <==> b.id != "") && (s[0] == 's' <==> b.id == "" && b.anchor != "")
      && (s[0] == 'i' <==> b.id == "" && b.anchor == "")
      && (b.id != "" ==> s[6..] == b.id) && (b.id == "" && b.anchor != "" ==> |s| >= 7 && s[7..] == b.anchor)
      && (b.id == "" && b.anchor == "" ==> s[..6] == "index:" && s[6..] == Decimal(i))
  {
  }

  // ----- resolving keys

  /** The key names block i and no other. */
  ghost predicate Names(book: Book, key: string, i: int) {
    && 0 <= i < |book| && Key(i, book[i]) == key
    && forall j :: 0 <= j < |book| && Key(j, book[j]) == key ==> j == i
  }

  function Matches(book: Book, key: string, from: nat): (hits: seq<nat>)
    requires from <= |book|
    ensures forall i :: i in hits <==> from <= i < |book| && Key(i, book[i]) == key
    ensures Distinct(hits)
    decreases |book| - from
  {
    if from == |book| then []
    else (if Key(from, book[from]) == key then [from] else []) + Matches(book, key, from + 1)
  }

  /** `resolve`: no match and several matches are both errors. */
  function Resolve(book: Book, key: string): (r: Result<nat>)
    ensures r.Ok? ==> r.value < |book| && Key(r.value, book[r.value]) == key
  {
    var found := Matches(book, key, 0);
    assert |found| == 1 ==> found[0] in found;
    if |key| > MAX_KEY_CHARS || |found| != 1 then ValueError else Ok(found[0])
  }

  lemma FirstTwoDiffer(xs: seq<nat>)
    requires Distinct(xs) && |xs| > 1
    ensures xs[0] != xs[1]
  {
  }

  lemma ResolveNames(book: Book, key: string)
    ensures Resolve(book, key).Ok? ==> Names(book, key, Resolve(book, key).value)
    ensures Resolve(book, key).Ok? <==> |key| <= MAX_KEY_CHARS && exists i :: Names(book, key, i)
    ensures forall i :: Names(book, key, i) && |key| <= MAX_KEY_CHARS ==> Resolve(book, key) == Ok(i)
  {
    var found := Matches(book, key, 0);
    if |found| == 1 {
      assert found[0] in found;
      forall j | 0 <= j < |book| && Key(j, book[j]) == key
        ensures j == found[0]
      {
        assert j in found;
      }
      assert Names(book, key, found[0]);
    }
    forall i | Names(book, key, i)
      ensures |found| == 1 && found[0] == i
    {
      assert i in found;
      forall k | 0 <= k < |found|
        ensures found[k] == i
      {
        assert found[k] in found;
      }
      if |found| > 1 {
        FirstTwoDiffer(found);
      }
    }
  }

  // ----- saved progress

  /** What a reader remembers: its block, and named keys to return to. */
  datatype Cursor = Cursor(index: int, points: map<string, string>)

  /** Saved progress; a digest of a block stands for the whole block. */
  datatype Snapshot = Snapshot(current: Option<string>, points: map<string, string>, digests: map<string, Block>)

  predicate PointName(name: string) {
    |name| <= MAX_NAME_CHARS && Strip(name) != ""
  }

  predicate TargetText(key: string) {
    0 < |key| <= MAX_KEY_CHARS
  }

  function Referenced(current: Option<string>, points: map<string, string>): set<string> {
    points.Values + (if current.Some? then {current.value} else {})
  }

  function IndexKeys(keys: set<string>): set<string> {
    set key | key in keys && IsIndexKey(key)
  }

  /** `validate_snapshot_contract`: what a snapshot must satisfy whatever the book. */
  predicate Contract(s: Snapshot) {
    && (s.current.Some? ==> TargetText(s.current.value))
    && |s.points| <= MAX_POINTS && (forall name :: name in s.points ==> PointName(name) && TargetText(s.points[name]))
    && s.digests.Keys == IndexKeys(Referenced(s.current, s.points))
  }

  /** Where a reader of this book can be. */
  predicate WithinBook(book: Book, c: Cursor) {
    if book == [] then c.index == -1 && c.points == map[] else 0 <= c.index < |book|
  }

  function CurrentKey(book: Book, c: Cursor): Option<string>
    requires WithinBook(book, c)
  {
    if c.index < 0 then None else Some(Key(c.index, book[c.index]))
  }

  predicate AllResolve(book: Book, keys: set<string>) {
    forall key :: key in keys ==> TargetText(key) && Resolve(book, key).Ok?
  }

  /** The blocks that keys name by position. */
  function DigestsOf(book: Book, keys: set<string>): map<string, Block>
    requires forall key :: key in keys ==> Resolve(book, key).Ok?
  {
    map key | key in IndexKeys(keys) :: book[Resolve(book, key).value]
  }

  /** `snapshot`. */
  function Take(book: Book, c: Cursor): Result<Snapshot>
    requires WithinBook(book, c)
  {
    var keys := Referenced(CurrentKey(book, c), c.points);
    if |c.points| > MAX_POINTS || !AllResolve(book, keys) || exists name :: name in c.points && !PointName(name)
    then ValueError
    else Ok(Snapshot(CurrentKey(book, c), c.points, DigestsOf(book, keys)))
  }

  /** `restore_snapshot`. */
  function Restore(book: Book, s: Snapshot): Result<Cursor> {
    if !Contract(s) || !Indexable(book) then ValueError
    else if book == [] then
      if s.current.Some? || s.points != map[] || s.digests != map[] then ValueError else Ok(Cursor(-1, map[]))
    else if s.current.None? then ValueError
    else if !AllResolve(book, Referenced(s.current, s.points)) then ValueError
    else if exists key :: key in s.digests && book[Resolve(book, key).value] != s.digests[key] then ValueError
    else Ok(Cursor(Resolve(book, s.current.value).value, s.points))
  }

  /** A key that may be saved: neither empty nor too long, and the name of one block. */
  ghost predicate Durable(book: Book, key: string) {
    0 < |key| <= MAX_KEY_CHARS && exists i :: Names(book, key, i)
  }

  lemma AllDurable(book: Book, keys: set<string>)
    ensures AllResolve(book, keys) <==> forall key :: key in keys ==> Durable(book, key)
  {
    forall key
      ensures TargetText(key) && Resolve(book, key).Ok? <==> Durable(book, key)
    {
      ResolveNames(book, key);
    }
    hide Resolve, Durable, TargetText, Key;
  }

  lemma ReferencedDurable(book: Book, current: Option<string>, points: map<string, string>)
    ensures (forall key :: key in Referenced(current, points) ==> Durable(book, key)) <==>
      (current.Some? ==> Durable(book, current.value))
      && forall name :: name in points ==> Durable(book, points[name])
  {
    hide Durable;
    var keys := Referenced(current, points);
    assert current.Some? ==> current.value in keys;
    assert forall name :: name in points ==> points[name] in keys;
    assert forall key :: key in keys ==> (current.Some? && key == current.value) || key in points.Values;
  }

  /** Progress can be saved exactly when the block at the cursor and every return point can be named for good. */
  lemma TakeExactly(book: Book, c: Cursor)
    requires WithinBook(book, c)
    ensures Take(book, c).Ok? <==>
      && (book != [] ==> Durable(book, Key(c.index, book[c.index])))
      && |c.points| <= MAX_POINTS
      && forall name :: name in c.points ==> PointName(name) && Durable(book, c.points[name])
  {
    hide AllResolve, Durable, Key, PointName, Referenced, DigestsOf;
    AllDurable(book, Referenced(CurrentKey(book, c), c.points));
    ReferencedDurable(book, CurrentKey(book, c), c.points);
  }

  /** Restoring what was saved, into the same book, gives the same block and the same return points. */
  lemma TakeThenRestore(book: Book, c: Cursor)
    requires Indexable(book) && WithinBook(book, c) && Take(book, c).Ok?
    ensures Restore(book, Take(book, c).value) == Ok(c)
  {
    var s := Take(book, c).value;
    if book != [] {
      assert s.current.value in Referenced(s.current, s.points);
      ResolveNames(book, s.current.value);
      assert Names(book, s.current.value, Resolve(book, s.current.value).value);
      assert Names(book, s.current.value, c.index);
    }
    forall name | name in s.points
      ensures TargetText(s.points[name])
    {
      assert s.points[name] in Referenced(s.current, s.points);
    }
    assert Contract(s);
  }

  /** j is the one block of the later book that is block i of the earlier one: by id, else by anchor, else by position
      and equal in every field. */
  ghost predicate Found(earlier: Book, i: int, later: Book, j: int) {
    && 0 <= i < |earlier| && 0 <= j < |later| && SameBlock(i, earlier[i], j, later[j])
    && (forall k :: 0 <= k < |later| && SameBlock(i, earlier[i], k, later[k]) ==> k == j)
    && (earlier[i].id == "" && earlier[i].anchor == "" ==> later[j] == earlier[i])
  }

  lemma KeyFinds(earlier: Book, key: string, i: int, later: Book, j: int)
    requires Names(earlier, key, i)
    ensures Found(earlier, i, later, j) <==> Names(later, key, j) && (IsIndexKey(key) ==> later[j] == earlier[i])
  {
    hide Key, SameBlock, IsIndexKey;
    KeyTells(i, earlier[i], i, earlier[i]);
    forall k | 0 <= k < |later|
      ensures Key(k, later[k]) == key <==> SameBlock(i, earlier[i], k, later[k])
    {
      KeyTells(i, earlier[i], k, later[k]);
    }
  }

  /** The block a saved key named. */
  ghost predicate Saved(book: Book, c: Cursor, i: int)
    requires WithinBook(book, c)
  {
    exists key :: key in Referenced(CurrentKey(book, c), c.points) && Names(book, key, i)
  }

  lemma TakenIsContract(book: Book, c: Cursor)
    requires WithinBook(book, c) && Take(book, c).Ok?
    ensures Contract(Take(book, c).value)
  {
    var s := Take(book, c).value;
    forall name | name in s.points
      ensures TargetText(s.points[name])
    {
      assert s.points[name] in Referenced(s.current, s.points);
    }
  }

  /** A saved key still names one block, the same one if it has a digest. */
  predicate Survives(s: Snapshot, later: Book, key: string) {
    Resolve(later, key).Ok? && (key in s.digests ==> later[Resolve(later, key).value] == s.digests[key])
  }

  lemma RestoreBySurvival(s: Snapshot, later: Book)
    requires Contract(s) && s.current.Some? && Indexable(later)
    ensures Restore(later, s).Ok? <==>
      later != [] && forall key :: key in Referenced(s.current, s.points) ==> TargetText(key) && Survives(s, later, key)
  {
    ContractBounds(s);
    hide Resolve, Indexable, TargetText, Contract, Referenced;
  }

  /** A saved key resolves in the later book, with an equal digest if it has one, exactly when its block is found
      there. */
  lemma KeyLands(earlier: Book, c: Cursor, later: Book, key: string)
    requires WithinBook(earlier, c) && Take(earlier, c).Ok? && key in Referenced(CurrentKey(earlier, c), c.points)
    ensures var s := Take(earlier, c).value; var i := Resolve(earlier, key).value;
      && Names(earlier, key, i) && TargetText(key)
      && (Survives(s, later, key) <==> exists j :: Found(earlier, i, later, j))
      && (Survives(s, later, key) ==> Found(earlier, i, later, Resolve(later, key).value))
  {
    var i := Resolve(earlier, key).value;
    ResolveNames(earlier, key);
    ResolveNames(later, key);
    hide Key, SameBlock, IsIndexKey, Resolve, Found, Names;
    forall j
      ensures Found(earlier, i, later, j) <==> Names(later, key, j) && (IsIndexKey(key) ==> later[j] == earlier[i])
    {
      KeyFinds(earlier, key, i, later, j);
    }
  }

  /** Restoring into any revision of the book succeeds exactly when every block saved is found in it. */
  lemma RestoreExactly(earlier: Book, c: Cursor, later: Book)
    requires WithinBook(earlier, c) && earlier != [] && Take(earlier, c).Ok? && Indexable(later)
    ensures Restore(later, Take(earlier, c).value).Ok? <==>
      forall i :: Saved(earlier, c, i) ==> exists j :: Found(earlier, i, later, j)
  {
    var s := Take(earlier, c).value;
    var keys := Referenced(s.current, s.points);
    assert s.current.value in keys;
    TakenIsContract(earlier, c);
    RestoreBySurvival(s, later);
    NothingFound(earlier, c.index);
    forall key | key in keys
      ensures Names(earlier, key, Resolve(earlier, key).value) && TargetText(key)
      ensures Survives(s, later, key) <==> exists j :: Found(earlier, Resolve(earlier, key).value, later, j)
    {
      KeyLands(earlier, c, later, key);
    }
    hide Resolve, Found, Key, Restore, Survives, Take, Names, Contract, Indexable;
    assert Saved(earlier, c, c.index) by {
      CurrentIsSaved(earlier, c);
    }
    if Restore(later, s).Ok? {
      forall i | Saved(earlier, c, i)
        ensures exists j :: Found(earlier, i, later, j)
      {
        var key :| key in keys && Names(earlier, key, i);
        NamesOne(earlier, key, i, Resolve(earlier, key).value);
      }
    } else if later != [] {
      var key :| key in keys && !Survives(s, later, key);
      assert Saved(earlier, c, Resolve(earlier, key).value);
    }
  }

  lemma NamesOne(book: Book, key: string, i: int, j: int)
    requires Names(book, key, i) && Names(book, key, j)
    ensures i == j
  {
  }

  lemma CurrentIsSaved(book: Book, c: Cursor)
    requires WithinBook(book, c) && book != [] && Take(book, c).Ok?
    ensures Saved(book, c, c.index)
  {
    var key := Key(c.index, book[c.index]);
    assert key in Referenced(CurrentKey(book, c), c.points);
    ResolveNames(book, key);
    assert Names(book, key, c.index);
  }

  lemma NothingFound(earlier: Book, i: int)
    ensures forall j :: !Found(earlier, i, [], j)
  {
  }

  /** And the restored reader stands on the block it stood on, its return points naming the blocks they named. */
  lemma RestoreFinds(earlier: Book, c: Cursor, later: Book)
    requires WithinBook(earlier, c) && earlier != [] && Take(earlier, c).Ok?
    requires Restore(later, Take(earlier, c).value).Ok?
    ensures var d := Restore(later, Take(earlier, c).value).value;
      && WithinBook(later, d) && d.points == c.points && Found(earlier, c.index, later, d.index)
      && forall name :: name in c.points ==>
           var i := Resolve(earlier, c.points[name]); var j := Resolve(later, c.points[name]);
           i.Ok? && j.Ok? && Found(earlier, i.value, later, j.value)
  {
    var s := Take(earlier, c).value;
    var keys := Referenced(s.current, s.points);
    var key := s.current.value;
    assert key in keys;
    TakenIsContract(earlier, c);
    RestoreBySurvival(s, later);
    forall key | key in keys
      ensures Resolve(earlier, key).Ok? && Resolve(later, key).Ok?
      ensures Found(earlier, Resolve(earlier, key).value, later, Resolve(later, key).value)
    {
      KeyLands(earlier, c, later, key);
    }
    ResolveNames(earlier, key);
    assert Names(earlier, key, Resolve(earlier, key).value);
    assert c.index == Resolve(earlier, key).value;
    hide Resolve, Found, Key;
    forall name | name in c.points
      ensures c.points[name] in keys
    {
    }
  }

  // ----- moving in the book

  datatype Family = Headings | Positions | Games

  predicate Belongs(b: Block, family: Family) {
    match family
    case Headings => b.kind.Heading?
    case Positions => b.kind.Position?
    case Games => b.kind.Game?
  }

  /** j is the nearest block of the family after i, or before it. */
  predicate Nearest(book: Book, i: int, family: Family, forward: bool, j: int) {
    && 0 <= j < |book| && Belongs(book[j], family) && (if forward then i < j else j < i)
    && forall k :: 0 <= k < |book| && (if forward then i < k < j else j < k < i) ==> !Belongs(book[k], family)
  }

  /** Some block of the family lies in that direction. */
  predicate Ahead(book: Book, i: int, family: Family, forward: bool) {
    exists j :: 0 <= j < |book| && (if forward then i < j else j < i) && Belongs(book[j], family)
  }

  /** Each flag says whether the move of its name would find a block. */
  predicate Foretells(r: Reachable, book: Book, i: int) {
    && r.previous == (i > 0) && r.next == (i + 1 < |book|)
    && r.headings == (Ahead(book, i, Headings, false), Ahead(book, i, Headings, true))
    && r.positions == (Ahead(book, i, Positions, false), Ahead(book, i, Positions, true))
    && r.games == (Ahead(book, i, Games, false), Ahead(book, i, Games, true))
  }

  /** A return point can be saved here: the name is fit, there is room, and the key of the block names no other. */
  ghost predicate Savable(book: Book, c: Cursor, name: string) {
    && 0 <= c.index < |book| && PointName(name) && (name in c.points || |c.points| < MAX_POINTS)
    && TargetText(Key(c.index, book[c.index])) && Names(book, Key(c.index, book[c.index]), c.index)
  }

  ghost predicate Returnable(book: Book, c: Cursor, name: string) {
    book != [] && PointName(name) && name in c.points && TargetText(c.points[name])
      && exists i :: Names(book, c.points[name], i)
  }

  datatype Reachable = Reachable(previous: bool, next: bool, headings: (bool, bool), positions: (bool, bool),
                                 games: (bool, bool))

  class BookReader {
    const book: Book      // the indexed revision
    const quiet: bool     // nobody edits the document
    var live: Book        // the document as its authors left it
    var index: int
    var points: map<string, string>

    function Here(): Cursor
      reads this
    {
      Cursor(index, points)
    }

    ghost predicate Valid()
      reads this
    {
      WithinBook(book, Here()) && |points| <= MAX_POINTS && Indexable(book)
    }

    constructor (document: Book, quiet: bool)
      requires Indexable(document)
      ensures book == document && this.quiet == quiet && live == document && Valid()
      ensures Here() == Cursor(if document == [] then -1 else 0, map[])
    {
      book, this.quiet, live := document, quiet, document;
      index, points := if document == [] then -1 else 0, map[];
    }

    /** `_require_indexed_revision`: the document may have been edited since the last look. */
    method Unedited() returns (same: bool)
      modifies `live
      ensures quiet ==> live == old(live)
      ensures same <==> live == book
    {
      if !quiet {
        live := *;
      }
      same := live == book;
    }

    /** `go_to`: the cursor moves, or stays where it was. */
    method GoTo(i: int) returns (ok: bool)
      requires Valid()
      modifies `live, `index
      ensures Valid() && (quiet ==> live == old(live))
      ensures index == (if ok then i else old(index)) && (ok ==> live == book && 0 <= i < |book|)
      ensures quiet ==> (ok <==> old(live) == book && 0 <= i < |book|)
    {
      var same := Unedited();
      if !same || !(0 <= i < |book|) {
        return false;
      }
      var previous := index;
      index := i;
      same := Unedited();
      if !same {
        index := previous;
      }
      return same;
    }

    /** `_next_matching`: the nearest block of a family in a direction. */
    method NextMatching(family: Family, forward: bool) returns (ok: bool)
      requires Valid()
      modifies `live, `index
      ensures Valid() && (quiet ==> live == old(live))
      ensures if ok then live == book && Nearest(book, old(index), family, forward, index) else index == old(index)
      ensures quiet ==> (ok <==> old(live) == book && Ahead(book, old(index), family, forward))
    {
      var same := Unedited();
      if !same || book == [] {
        return false;
      }
      var step := if forward then 1 else -1;
      var cursor := index + step;
      while 0 <= cursor < |book|
        invariant -1 <= cursor <= |book| && (if forward then index < cursor else cursor < index)
        invariant forall k :: 0 <= k < |book| && (if forward then index < k < cursor else cursor < k < index) ==>
            !Belongs(book[k], family)
        invariant index == old(index) && Valid() && (quiet ==> live == old(live))
        decreases if forward then |book| - cursor else cursor + 1
      {
        if Belongs(book[cursor], family) {
          ok := GoTo(cursor);
          return;
        }
        cursor := cursor + step;
      }
      same := Unedited();
      return false;
    }

    /** One side of the scan of `navigation_availability`. */
    method Scan(forward: bool) returns (headings: bool, positions: bool, games: bool)
      requires Valid() && book != []
      ensures headings == Ahead(book, index, Headings, forward)
      ensures positions == Ahead(book, index, Positions, forward)
      ensures games == Ahead(book, index, Games, forward)
    {
      headings, positions, games := false, false, false;
      var step := if forward then 1 else -1;
      var cursor := index + step;
      while 0 <= cursor < |book|
        invariant -1 <= cursor <= |book| && (if forward then index < cursor else cursor < index)
        invariant headings == Before(Headings, forward, cursor)
        invariant positions == Before(Positions, forward, cursor)
        invariant games == Before(Games, forward, cursor)
        decreases if forward then |book| - cursor else cursor + 1
      {
        headings := headings || Belongs(book[cursor], Headings);
        positions := positions || Belongs(book[cursor], Positions);
        games := games || Belongs(book[cursor], Games);
        if headings && positions && games {
          break;
        }
        cursor := cursor + step;
      }
    }

    /** Whether a block of the family was passed on the way to `cursor`. */
    ghost predicate Before(family: Family, forward: bool, cursor: int)
      reads this
    {
      exists k :: 0 <= k < |book| && (if forward then index < k < cursor else cursor < k < index)
        && Belongs(book[k], family)
    }

    /** `navigation_availability`: each flag says whether the move in that direction would succeed. */
    method Availability() returns (r: Option<Reachable>)
      requires Valid()
      modifies `live
      ensures quiet ==> live == old(live)
      ensures quiet ==> (r.Some? <==> live == book && book != [])
      ensures r.Some? ==> live == book && Foretells(r.value, book, index)
    {
      var same := Unedited();
      if !same || book == [] {
        return None;
      }
      var h0, p0, g0 := Scan(false);
      var h1, p1, g1 := Scan(true);
      same := Unedited();
      if !same {
        return None;
      }
      return Some(Reachable(index > 0, index < |book| - 1, (h0, h1), (p0, p1), (g0, g1)));
    }

    /** `save_return_point`: the name is bound to the key of the current block, or nothing changes. */
    method SaveReturnPoint(name: string) returns (ok: bool)
      requires Valid()
      modifies `live, `points
      ensures Valid() && (quiet ==> live == old(live))
      ensures ok ==>
          live == book && Savable(book, old(Here()), name)
          && points == old(points)[name := Key(index, book[index])]
      ensures !ok ==> points == old(points)
      ensures quiet ==> (ok <==> old(live) == book && Savable(book, old(Here()), name))
    {
      var same := Unedited();
      if !same || book == [] || !PointName(name) || (name !in points && |points| >= MAX_POINTS) {
        return false;
      }
      var key := Key(index, book[index]);
      ResolveNames(book, key);
      if !TargetText(key) || Resolve(book, key).ValueError? {
        return false;
      }
      var previous := points;
      PointsGrow(name, key);
      points := points[name := key];
      same := Unedited();
      if !same {
        points := previous;
      }
      return same;
    }

    lemma PointsGrow(name: string, key: string)
      requires |points| <= MAX_POINTS && (name in points || |points| < MAX_POINTS)
      ensures |points[name := key]| <= MAX_POINTS
    {
      assert points[name := key].Keys == points.Keys + {name};
      assert |points[name := key]| == |points[name := key].Keys|;
      if name in points {
        assert points.Keys + {name} == points.Keys;
      }
    }

    /** `restore_return_point`: back to the one block the saved key names. */
    method RestoreReturnPoint(name: string) returns (ok: bool)
      requires Valid()
      modifies `live, `index
      ensures Valid() && (quiet ==> live == old(live))
      ensures if ok then live == book && name in points && Names(book, points[name], index) else index == old(index)
      ensures quiet ==> (ok <==> old(live) == book && Returnable(book, old(Here()), name))
    {
      if !PointName(name) || name !in points {
        return false;
      }
      var same := Unedited();
      var key := points[name];
      ResolveNames(book, key);
      if !same || book == [] || !TargetText(key) || Resolve(book, key).ValueError? {
        return false;
      }
      ok := GoTo(Resolve(book, key).value);
    }

    /** `snapshot`. */
    method TakeSnapshot() returns (r: Result<Snapshot>)
      requires Valid()
      modifies `live
      ensures quiet ==> live == old(live)
      ensures r.Ok? ==> r == Take(book, Here()) && live == book
      ensures quiet ==> r == if old(live) == book then Take(book, Here()) else ValueError
    {
      hide Resolve, Key, TargetText, PointName, IsIndexKey;
      var same := Unedited();
      if !same || |points| > MAX_POINTS {
        return ValueError;
      }
      var current: Option<string> := None;
      if index >= 0 {
        var key := Key(index, book[index]);
        if !TargetText(key) || Resolve(book, key).ValueError? {
          return ValueError;
        }
        current := Some(key);
      }
      var valid := ValidPoints();
      if !valid {
        return ValueError;
      }
      var digests := Digests(Referenced(current, points));
      same := Unedited();
      return if same then Ok(Snapshot(current, points, digests)) else ValueError;
    }

    /** The loop over return points: names and keys must be fit, and every key name one block. */
    method ValidPoints() returns (valid: bool)
      ensures valid <==> forall name :: name in points ==>
        PointName(name) && TargetText(points[name]) && Resolve(book, points[name]).Ok?
    {
      var rest := points.Keys;
      while rest != {}
        invariant rest <= points.Keys
        invariant forall name :: name in points && name !in rest ==>
          PointName(name) && TargetText(points[name]) && Resolve(book, points[name]).Ok?
        decreases |rest|
      {
        var name :| name in rest;
        if !PointName(name) || !TargetText(points[name]) || Resolve(book, points[name]).ValueError? {
          return false;
        }
        rest := rest - {name};
      }
      return true;
    }

    /** The loop over referenced keys: those that name a block by position get its digest. */
    method Digests(keys: set<string>) returns (digests: map<string, Block>)
      requires forall key :: key in keys ==> Resolve(book, key).Ok?
      ensures digests == DigestsOf(book, keys)
    {
      hide Resolve, DigestsOf;
      NoDigests(book);
      digests := map[];
      var rest, done := keys, {};
      while rest != {}
        invariant rest + done == keys && digests == DigestsOf(book, done)
        decreases |rest|
      {
        var key :| key in rest;
        DigestsStep(book, done, key);
        if IsIndexKey(key) {
          digests := digests[key := book[Resolve(book, key).value]];
        }
        rest, done := rest - {key}, done + {key};
      }
      assert done == keys;
    }
  }

  lemma NoDigests(book: Book)
    ensures DigestsOf(book, {}) == map[]
  {
  }

  lemma DigestsStep(book: Book, done: set<string>, key: string)
    requires Resolve(book, key).Ok? && forall k :: k in done ==> Resolve(book, k).Ok?
    ensures DigestsOf(book, done + {key}) ==
      if IsIndexKey(key) then DigestsOf(book, done)[key := book[Resolve(book, key).value]] else DigestsOf(book, done)
  {
    hide Resolve, IsIndexKey;
  }

  lemma ContractBounds(s: Snapshot)
    requires Contract(s)
    ensures |s.points| <= MAX_POINTS
    ensures forall key :: key in s.digests ==> key in Referenced(s.current, s.points)
    ensures s.current.Some? ==> s.current.value in Referenced(s.current, s.points)
  {
    forall key | key in s.digests
      ensures key in Referenced(s.current, s.points)
    {
      assert key in s.digests.Keys;
    }
  }

  /** `restore_snapshot`: a new reader of the document, where the snapshot says. */
  method RestoreSnapshot(document: Book, s: Snapshot, quiet: bool) returns (r: Option<BookReader>)
    ensures r.Some? ==> fresh(r.value) && r.value.Valid() && r.value.book == document
    ensures r.Some? ==> Restore(document, s) == Ok(r.value.Here())
    ensures quiet ==> (r.Some? <==> Restore(document, s).Ok?)
  {
    hide Contract, Resolve, Referenced, IsIndexKey;
    if !Contract(s) || !Indexable(document) {
      return None;
    }
    ContractBounds(s);
    hide Indexable;
    var reader := new BookReader(document, quiet);
    if document == [] {
      if s.current.Some? || s.points != map[] || s.digests != map[] {
        return None;
      }
      var same := reader.Unedited();
      return if same then Some(reader) else None;
    }
    if s.current.None? {
      return None;
    }
    var same := reader.Unedited();
    if !same || !AllResolve(document, Referenced(s.current, s.points)) {
      return None;
    }
    if exists key :: key in s.digests && document[Resolve(document, key).value] != s.digests[key] {
      return None;
    }
    var ok := reader.GoTo(Resolve(document, s.current.value).value);
    if !ok {
      return None;
    }
    reader.points := s.points;
    same := reader.Unedited();
    return if same then Some(reader) else None;
  }

  // ----- heading paths

  /** The heading at j still governs block i: no heading of its level or above lies between. */
  predicate Governs(book: Book, j: nat, i: nat)
    requires i < |book|
  {
    && j <= i && book[j].kind.Heading?
    && forall k :: j < k <= i && book[k].kind.Heading? ==> book[k].kind.level > book[j].kind.level
  }

  /** Levels run from 1 to 6. */
  predicate Levelled(book: Book) {
    forall i :: 0 <= i < |book| && book[i].kind.Heading? ==> 1 <= book[i].kind.level <= 6
  }

  /** The heading of a level that governs block i, if there is one. */
  ghost predicate HeadedBy(book: Book, i: nat, level: nat, text: Option<string>)
    requires i < |book|
  {
    if text.None?
    then forall j: nat :: j <= i && book[j].kind.Heading? && book[j].kind.level == level ==> !Governs(book, j, i)
    else exists j: nat :: j <= i && book[j].kind == Heading(level) && book[j].text == text.value && Governs(book, j, i)
  }

  function Present(levels: seq<Option<string>>): seq<string> {
    if levels == [] then []
    else (if levels[0].Some? then [levels[0].value] else []) + Present(levels[1..])
  }

  /** A path lists, outermost first, the governing headings of the six levels. */
  ghost predicate PathOf(book: Book, i: nat, path: seq<string>)
    requires i < |book|
  {
    exists levels: seq<Option<string>> :: |levels| == 6 && path == Present(levels)
      && forall l :: 0 <= l < 6 ==> HeadedBy(book, i, l + 1, levels[l])
  }

  /** Governing headings of deeper levels come later in the book. */
  lemma GovernorsNest(book: Book, i: nat, j: nat, k: nat)
    requires i < |book| && Governs(book, j, i) && Governs(book, k, i)
    ensures book[j].kind.level < book[k].kind.level <==> j < k
    ensures book[j].kind.level == book[k].kind.level ==> j == k
  {
  }

  /** A heading takes its level and clears the deeper ones. */
  method EnterHeading(levels: array<Option<string>>, level: nat, text: string)
    requires levels.Length == 6 && level < 6
    modifies levels
    ensures forall l :: 0 <= l < 6 ==>
        levels[l] == (if l < level then old(levels[l]) else if l == level then Some(text) else None)
  {
    levels[level] := Some(text);
    for deeper := level + 1 to 6
      invariant forall l :: 0 <= l < level ==> levels[l] == old(levels[l])
      invariant levels[level] == Some(text)
      invariant forall l :: level < l < deeper ==> levels[l] == None
    {
      levels[deeper] := None;
    }
  }

  /** The levels name the headings that govern the last of the first n blocks. */
  ghost predicate HeadedSoFar(book: Book, n: nat, levels: seq<Option<string>>)
    requires n <= |book| && |levels| == 6
  {
    forall l :: 0 <= l < 6 ==> if n == 0 then levels[l].None? else HeadedBy(book, n - 1, l + 1, levels[l])
  }

  /** The levels after one more block. */
  predicate Entered(b: Block, before: seq<Option<string>>, after: seq<Option<string>>)
    requires |before| == |after| == 6
  {
    forall l :: 0 <= l < 6 ==> after[l] == LevelAfter(b, l + 1, before[l])
  }

  /** A heading sets its own level and clears the deeper ones. */
  function LevelAfter(b: Block, level: nat, before: Option<string>): Option<string> {
    if !b.kind.Heading? || level < b.kind.level then before else if level == b.kind.level then Some(b.text) else None
  }

  lemma HeadingsStep(book: Book, i: nat, before: seq<Option<string>>, after: seq<Option<string>>)
    requires i < |book| && |before| == |after| == 6 && HeadedSoFar(book, i, before) && Entered(book[i], before, after)
    ensures HeadedSoFar(book, i + 1, after) && PathOf(book, i, Present(after))
  {
    hide HeadedBy, PathOf, Present;
    forall l | 0 <= l < 6
      ensures HeadedBy(book, i, l + 1, after[l])
    {
      HeadingStep(book, i, l + 1, if i == 0 then None else before[l], after[l]);
    }
    LevelsMakePath(book, i, after);
  }

  /** `_build_entries`: the heading path of every block. */
  method HeadingPaths(book: Book) returns (paths: seq<seq<string>>)
    requires Levelled(book)
    ensures |paths| == |book| && forall i :: 0 <= i < |book| ==> PathOf(book, i, paths[i])
  {
    hide PathOf, HeadedBy, Present;
    var levels := new Option<string>[6](_ => None);
    paths := [];
    for i := 0 to |book|
      invariant |paths| == i && forall k :: 0 <= k < i ==> PathOf(book, k, paths[k])
      invariant HeadedSoFar(book, i, levels[..])
    {
      hide HeadedSoFar;
      ghost var before := levels[..];
      if book[i].kind.Heading? {
        EnterHeading(levels, book[i].kind.level - 1, book[i].text);
      }
      HeadingsStep(book, i, before, levels[..]);
      paths := paths + [Present(levels[..])];
    }
  }

  lemma LevelsMakePath(book: Book, i: nat, levels: seq<Option<string>>)
    requires i < |book| && |levels| == 6 && forall l :: 0 <= l < 6 ==> HeadedBy(book, i, l + 1, levels[l])
    ensures PathOf(book, i, Present(levels))
  {
  }

  lemma HeadingStep(book: Book, i: nat, level: nat, before: Option<string>, after: Option<string>)
    requires i < |book| && (if i == 0 then before.None? else HeadedBy(book, i - 1, level, before))
    requires after == LevelAfter(book[i], level, before)
    ensures HeadedBy(book, i, level, after)
  {
    if i > 0 {
      forall j: nat | j < i
        ensures Governs(book, j, i) <==>
            Governs(book, j, i - 1)
            && (book[i].kind.Heading? ==> book[i].kind.level > book[j].kind.level)
      {
      }
    }
    if book[i].kind.Heading? {
      assert Governs(book, i, i);
    }
  }
}
