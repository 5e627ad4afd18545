/** What every stream of markup keeps: published blocks stay in order, anchors are never lost, and inline events stay in
    source order unless a title is recorded behind content shown inside it. */
module HtmlOrder {
  import opened Base
  import opened Text
  import opened HtmlEvents

  // ----- blocks are only ever added

  /** The blocks published before the serial number reached n. */
  function Elder(bs: seq<Block>, n: nat): (es: seq<Block>)
    ensures |es| <= |bs|
  {
    if bs == [] then [] else (if bs[0].serial < n then [bs[0]] else []) + Elder(bs[1..], n)
  }

  lemma {:induction false} ElderMember(bs: seq<Block>, n: nat, b: Block)
    ensures b in Elder(bs, n) <==> b in bs && b.serial < n
  {
    if bs != [] {
      ElderMember(bs[1..], n, b);
    }
  }

  predicate Numbered(bs: seq<Block>, made: nat) {
    forall b :: b in bs ==> b.serial < made
  }

  lemma {:induction false} ElderConcat(a: seq<Block>, b: seq<Block>, n: nat)
    ensures Elder(a + b, n) == Elder(a, n) + Elder(b, n)
  {
    if a == [] {
      assert a + b == b;
    } else {
      assert (a + b)[1..] == a[1..] + b;
      ElderConcat(a[1..], b, n);
    }
  }

  lemma {:induction false} ElderAll(bs: seq<Block>, n: nat)
    requires Numbered(bs, n)
    ensures Elder(bs, n) == bs
  {
    if bs != [] {
      assert bs[0] in bs;
      assert forall b :: b in bs[1..] ==> b in bs;
      ElderAll(bs[1..], n);
    }
  }

  lemma {:induction false} ElderTwice(bs: seq<Block>, n: nat, m: nat)
    requires n <= m
    ensures Elder(Elder(bs, m), n) == Elder(bs, n)
  {
    if bs != [] {
      ElderTwice(bs[1..], n, m);
      var rest := Elder(bs[1..], m);
      if bs[0].serial < m {
        assert ([bs[0]] + rest)[0] == bs[0] && ([bs[0]] + rest)[1..] == rest;
        assert Elder(bs, m) == [bs[0]] + rest;
      } else {
        assert Elder(bs, m) == [] + rest == rest;
      }
    }
  }

  /** t has the blocks of s, in their order, among new ones. */
  predicate Grown(s: Html, t: Html) {
    s.made <= t.made && Numbered(t.blocks, t.made) && Elder(t.blocks, s.made) == s.blocks
  }

  lemma GrownSelf(s: Html)
    requires Numbered(s.blocks, s.made)
    ensures Grown(s, s)
  {
    ElderAll(s.blocks, s.made);
  }

  lemma GrownTwice(s: Html, t: Html, u: Html)
    requires Grown(s, t) && Grown(t, u)
    ensures Grown(s, u)
  {
    ElderTwice(u.blocks, s.made, t.made);
  }

  lemma PublishGrows(s: Html, kind: BlockKind, text: string)
    requires Numbered(s.blocks, s.made)
    ensures Grown(s, Publish(s, kind, text))
  {
    ElderConcat(s.blocks, [Block(s.made, kind, text)], s.made);
    ElderAll(s.blocks, s.made);
  }

  lemma InsertGrows(s: Html, anchor: nat, kind: BlockKind, text: string)
    requires Numbered(s.blocks, s.made) && InsertBefore(s, anchor, kind, text).Some?
    ensures Grown(s, InsertBefore(s, anchor, kind, text).value)
  {
    var at := IndexOf(s.blocks, anchor).value;
    AddedInside(s.blocks[..at], s.blocks[at..], Block(s.made, kind, text), s.made);
    assert s.blocks[..at] + s.blocks[at..] == s.blocks;
  }

  lemma AddedInside(a: seq<Block>, b: seq<Block>, added: Block, made: nat)
    requires Numbered(a + b, made) && added.serial == made
    ensures Numbered(a + [added] + b, made + 1) && Elder(a + [added] + b, made) == a + b
  {
    assert Elder([added], made) == [];
    hide Elder;
    ElderConcat(a + [added], b, made);
    ElderConcat(a, [added], made);
    assert Elder(a, made) + [] == Elder(a, made);
    ElderConcat(a, b, made);
    ElderAll(a + b, made);
  }

  /** An anchor is a published block. */
  predicate Anchored(bs: seq<Block>, serial: nat) {
    exists i :: 0 <= i < |bs| && bs[i].serial == serial
  }

  lemma AnchorFound(s: Html, serial: nat, kind: BlockKind, text: string)
    ensures InsertBefore(s, serial, kind, text).Some? <==> Anchored(s.blocks, serial)
  {
    var at := IndexOf(s.blocks, serial);
    if i :| 0 <= i < |s.blocks| && s.blocks[i].serial == serial {
      assert s.blocks[i] in s.blocks;
    }
  }

  lemma AnchorKept(s: Html, t: Html, serial: nat)
    requires Grown(s, t) && Anchored(s.blocks, serial)
    ensures Anchored(t.blocks, serial)
  {
    var i :| 0 <= i < |s.blocks| && s.blocks[i].serial == serial;
    ElderMember(t.blocks, s.made, s.blocks[i]);
  }

  // ----- weaving fails exactly when the events are out of order

  /** The events begin at or after the cursor, and each after the one before it has resumed. */
  predicate InOrder(events: seq<Inline>, cursor: nat)
    decreases |events|
  {
    events == [] || (cursor <= events[0].part && InOrder(events[1..], Resume(events[0])))
  }

  /** Within the parts, and anchored at published blocks. */
  predicate Placed(events: seq<Inline>, parts: nat, bs: seq<Block>) {
    forall i :: 0 <= i < |events| ==> events[i].part <= Resume(events[i]) <= parts && Anchored(bs, events[i].block)
  }

  lemma PlacedKept(events: seq<Inline>, parts: nat, more: nat, s: Html, t: Html)
    requires Placed(events, parts, s.blocks) && parts <= more && Grown(s, t)
    ensures Placed(events, more, t.blocks)
  {
    forall i | 0 <= i < |events|
      ensures Anchored(t.blocks, events[i].block)
    {
      AnchorKept(s, t, events[i].block);
    }
  }

  /** With all anchors published, weaving raises exactly when some event begins before the one before it has resumed. */
  lemma {:induction false} WeaveExactly(s: Html, kind: CaptureKind, parts: seq<string>, events: seq<Inline>,
                                        cursor: nat, started: bool)
    requires cursor <= |parts| && Placed(events, |parts|, s.blocks) && Numbered(s.blocks, s.made)
    ensures Weave(s, kind, parts, events, cursor, started).Some? <==> InOrder(events, cursor)
    ensures Weave(s, kind, parts, events, cursor, started).Some? ==>
        Grown(s, Weave(s, kind, parts, events, cursor, started).value)
    decreases |events|
  {
    hide Compact, Joined, Grown, Anchored, InsertBefore, Numbered;
    if events == [] {
      WeaveEnds(s, kind, parts, cursor, started);
    } else if cursor <= events[0].part {
      var e := events[0];
      var segment := Compact(Joined(parts[cursor..e.part]));
      if segment == "" && (kind != ItemText || started) {
        WeaveExactly(s, kind, parts, events[1..], Resume(e), started);
      } else {
        var text := if segment == "" then "\U{2022}" else Projected(kind, started, segment);
        AnchorFound(s, e.block, ProjectedKind(kind, started), text);
        InsertGrows(s, e.block, ProjectedKind(kind, started), text);
        var t := InsertBefore(s, e.block, ProjectedKind(kind, started), text).value;
        PlacedKept(events, |parts|, |parts|, s, t);
        GrownNumbered(s, t);
        WeaveExactly(t, kind, parts, events[1..], Resume(e), true);
        if InOrder(events, cursor) {
          GrownTwice(s, t, Weave(t, kind, parts, events[1..], Resume(e), true).value);
        }
      }
    }
  }

  lemma WeaveEnds(s: Html, kind: CaptureKind, parts: seq<string>, cursor: nat, started: bool)
    requires cursor <= |parts| && Numbered(s.blocks, s.made)
    ensures Weave(s, kind, parts, [], cursor, started).Some?
      && Grown(s, Weave(s, kind, parts, [], cursor, started).value)
  {
    var trailing := Compact(Joined(parts[cursor..]));
    GrownSelf(s);
    PublishGrows(s, ProjectedKind(kind, started), Projected(kind, started, trailing));
  }

  lemma GrownNumbered(s: Html, t: Html)
    requires Grown(s, t)
    ensures Numbered(t.blocks, t.made)
  {
  }

  lemma {:induction false} FlushedGrows(s: Html, anchor: nat, items: seq<string>)
    requires Numbered(s.blocks, s.made) && Anchored(s.blocks, anchor)
    ensures Flushed(s, anchor, items).Some? && Grown(s, Flushed(s, anchor, items).value)
    decreases |items|
  {
    hide Grown, Anchored, Numbered, InsertBefore;
    if items == [] {
      GrownSelf(s);
    } else if items[0] == "" {
      FlushedGrows(s, anchor, items[1..]);
    } else {
      AnchorFound(s, anchor, Paragraph, "\U{2022} " + items[0]);
      InsertGrows(s, anchor, Paragraph, "\U{2022} " + items[0]);
      var t := InsertBefore(s, anchor, Paragraph, "\U{2022} " + items[0]).value;
      AnchorKept(s, t, anchor);
      GrownNumbered(s, t);
      FlushedGrows(t, anchor, items[1..]);
      GrownTwice(s, t, Flushed(t, anchor, items[1..]).value);
    }
  }

  lemma {:induction false} SlotsGrow(s: Html, n: nat)
    requires Numbered(s.blocks, s.made)
    ensures Grown(s, Slots(s, n))
    decreases n
  {
    if n == 0 {
      GrownSelf(s);
    } else {
      PublishGrows(s, PgnSlot, "");
      SlotsGrow(Publish(s, PgnSlot, ""), n - 1);
      GrownTwice(s, Publish(s, PgnSlot, ""), Slots(s, n));
    }
  }

  lemma {:induction false} ItemsGrow(s: Html, items: seq<string>)
    requires Numbered(s.blocks, s.made)
    ensures Grown(s, PublishItems(s, items))
    decreases |items|
  {
    hide Grown, Numbered;
    if items == [] {
      GrownSelf(s);
    } else {
      var t := if items[0] == "" then s else Publish(s, Paragraph, "\U{2022} " + items[0]);
      GrownSelf(s);
      PublishGrows(s, Paragraph, "\U{2022} " + items[0]);
      GrownNumbered(s, t);
      ItemsGrow(t, items[1..]);
      GrownTwice(s, t, PublishItems(t, items[1..]));
    }
  }

  lemma EmitGrows(s: Html, l: Listing)
    requires Numbered(s.blocks, s.made)
    ensures Grown(s, EmitList(s, l))
  {
    GrownSelf(s);
    ItemsGrow(s, l.items);
    if l.items != [] {
      PublishGrows(s, ListBlock, JoinWith(l.items, '\n'));
    }
  }

  // ----- what every capture keeps

  /** One more event keeps the order exactly when it begins after the last one has resumed. */
  lemma {:induction false} InOrderSnoc(events: seq<Inline>, e: Inline, cursor: nat)
    ensures InOrder(events + [e], cursor) <==> InOrder(events, cursor) && LastResume(events, cursor) <= e.part
    decreases |events|
  {
    if events != [] {
      assert (events + [e])[0] == events[0] && (events + [e])[1..] == events[1..] + [e];
      InOrderSnoc(events[1..], e, Resume(events[0]));
    } else {
      assert (events + [e])[1..] == [];
    }
  }

  /** A capture's owner is the topmost owning capture below it, and its start lies within the owner's parts. */
  predicate Nested(cs: seq<Capture>, i: nat)
    requires i < |cs|
  {
    && cs[i].parent == Owner(cs[..i])
    && (cs[i].parent.Some? ==> cs[i].parentPart <= |cs[cs[i].parent.value].parts|)
  }

  predicate Kept(s: Html, i: nat)
    requires i < |s.captures|
  {
    var c := s.captures[i];
    && Nested(s.captures, i) && c.firstBlock <= |s.blocks| && Placed(c.events, |c.parts|, s.blocks)
    && (Owns(c) ==> Lazy(c, s.boundaries))
  }

  predicate Sound(s: Html) {
    Numbered(s.blocks, s.made) && forall i :: 0 <= i < |s.captures| ==> Kept(s, i)
  }

  /** The events of a capture are in order, and a child that owns content begins after all of them. */
  predicate Tidy(cs: seq<Capture>, i: nat)
    requires i < |cs| && Nested(cs, i)
  {
    && InOrder(cs[i].events, 0)
    && (cs[i].parent.Some? && Owns(cs[i]) ==> LastResume(cs[cs[i].parent.value].events, 0) <= cs[i].parentPart)
  }

  predicate Ordered(s: Html)
    requires Sound(s)
  {
    forall i :: 0 <= i < |s.captures| ==> Kept(s, i) && Tidy(s.captures, i)
  }

  /** What every run keeps: no event is misplaced, no anchor lost, no boundary forgotten; and unless a capture was
      recorded behind later content, everything is in order and no error is raised. */
  predicate Steady(s: Html) {
    Sound(s) && (!s.late ==> Ordered(s) && !s.failed)
  }

  lemma {:induction false} OwnerByKinds(a: seq<Capture>, b: seq<Capture>)
    requires |a| == |b| && forall i :: 0 <= i < |a| ==> a[i].kind == b[i].kind
    ensures Owner(a) == Owner(b)
  {
    if a != [] && !Owns(a[|a| - 1]) {
      OwnerByKinds(a[..|a| - 1], b[..|b| - 1]);
    }
  }

  /** The same capture with more text. */
  predicate Longer(c: Capture, d: Capture) {
    d == c.(parts := d.parts, synced := d.synced, eager := d.eager) && |c.parts| <= |d.parts|
  }

  /** More text in the captures disturbs nothing. */
  lemma TextKeeps(s: Html, t: Html)
    requires Steady(s) && t == s.(captures := t.captures, boundaries := t.boundaries) && |t.captures| == |s.captures|
    requires forall i :: 0 <= i < |s.captures| ==> Longer(s.captures[i], t.captures[i])
    requires forall i :: 0 <= i < |s.captures| && Owns(t.captures[i]) ==> Lazy(t.captures[i], t.boundaries)
    ensures Steady(t)
  {
    hide Lazy, Anchored, InOrder, Resume, LastResume, Numbered;
    forall i | 0 <= i < |t.captures|
      ensures Kept(t, i) && (!s.late ==> Tidy(t.captures, i))
    {
      assert Kept(s, i);
      OwnerByKinds(s.captures[..i], t.captures[..i]);
      if s.captures[i].parent.Some? {
        assert Longer(s.captures[s.captures[i].parent.value], t.captures[s.captures[i].parent.value]);
      }
      assert Nested(t.captures, i);
      assert !s.late ==> Tidy(s.captures, i);
    }
  }

  /** More blocks disturb nothing. */
  lemma BlocksKeep(s: Html, t: Html)
    requires Steady(s) && t.captures == s.captures && t.boundaries == s.boundaries && Grown(s, t)
    requires t.late == s.late && (t.failed ==> s.failed || s.late)
    ensures Steady(t)
  {
    hide Lazy, InOrder, Resume, LastResume;
    forall i | 0 <= i < |t.captures|
      ensures Kept(t, i)
    {
      assert Kept(s, i);
      PlacedKept(s.captures[i].events, |s.captures[i].parts|, |s.captures[i].parts|, s, t);
    }
    assert !s.late ==> forall i :: 0 <= i < |s.captures| ==> Kept(s, i) && Tidy(s.captures, i);
  }

  lemma PopKeeps(s: Html)
    requires Steady(s) && s.captures != []
    ensures Steady(s.(captures := s.captures[..|s.captures| - 1]))
  {
    hide Lazy, Placed, InOrder, LastResume, Numbered;
    var t := s.(captures := s.captures[..|s.captures| - 1]);
    forall i | 0 <= i < |t.captures|
      ensures Kept(t, i) && (!s.late ==> Tidy(t.captures, i))
    {
      assert Kept(s, i) && t.captures[..i] == s.captures[..i];
      assert !s.late ==> Tidy(s.captures, i);
    }
  }

  /** An event may be recorded on the topmost owner: it lies within the parts and is anchored. */
  predicate Recordable(s: Html, o: nat, e: Inline) {
    && Owner(s.captures) == Some(o) && e.part <= Resume(e) <= |s.captures[o].parts| && Anchored(s.blocks, e.block)
  }

  lemma RecordKept(s: Html, o: nat, e: Inline, i: nat)
    requires Sound(s) && Recordable(s, o, e) && i < |s.captures|
    ensures Kept(Record(s, o, e), i)
  {
    hide Alike, Anchored, InOrder, Numbered;
    var t := Record(s, o, e);
    assert Kept(s, i);
    OwnerByKinds(s.captures[..i], t.captures[..i]);
    assert Nested(t.captures, i);
    PlacedSnoc(s.captures[i].events, e, |s.captures[i].parts|, s.blocks);
  }

  lemma PlacedSnoc(events: seq<Inline>, e: Inline, parts: nat, bs: seq<Block>)
    requires Placed(events, parts, bs)
    ensures e.part <= Resume(e) <= parts && Anchored(bs, e.block) ==> Placed(events + [e], parts, bs)
  {
  }

  lemma RecordTidy(s: Html, o: nat, e: Inline, i: nat)
    requires Sound(s) && Recordable(s, o, e) && i < |s.captures| && Kept(Record(s, o, e), i)
    requires Kept(s, i) && Tidy(s.captures, i) && LastResume(s.captures[o].events, 0) <= e.part
    ensures Tidy(Record(s, o, e).captures, i)
  {
    InOrderSnoc(s.captures[o].events, e, 0);
    hide InOrder, Sound, Kept;
    if s.captures[i].parent.Some? {
      ParentBelow(s, i);
    }
  }

  lemma ParentBelow(s: Html, i: nat)
    requires i < |s.captures| && Nested(s.captures, i) && s.captures[i].parent.Some?
    ensures s.captures[i].parent.value < i
  {
  }

  /** A record on the topmost owner keeps everything, if it begins after the owner's last event has resumed. */
  lemma RecordKeeps(s: Html, o: nat, e: Inline)
    requires Steady(s) && Recordable(s, o, e)
    requires !s.late ==> LastResume(s.captures[o].events, 0) <= e.part
    ensures Steady(Record(s, o, e))
  {
    hide Tidy, Nested, Placed, Lazy, Anchored, Resume, LastResume, Numbered;
    forall i | 0 <= i < |s.captures|
      ensures Kept(Record(s, o, e), i)
      ensures !s.late ==> Tidy(Record(s, o, e).captures, i)
    {
      RecordKept(s, o, e, i);
      if !s.late {
        assert Kept(s, i) && Tidy(s.captures, i);
        RecordTidy(s, o, e, i);
      }
    }
  }

  lemma LastPlaced(events: seq<Inline>, parts: nat, bs: seq<Block>)
    requires Placed(events, parts, bs)
    ensures LastResume(events, 0) <= parts
  {
  }

  lemma PushKeeps(s: Html, tag: Tag)
    requires Steady(s) && tag.Captured?
    ensures Steady(Pushed(s, tag))
  {
    var t := Pushed(s, tag);
    var n := |s.captures|;
    assert Joined([]) + Breaks(0) == "";
    hide Alike, Anchored, InOrder, Numbered;
    forall i | 0 <= i < |t.captures|
      ensures Kept(t, i) && (!t.late ==> Tidy(t.captures, i))
    {
      if i < n {
        assert Kept(s, i) && t.captures[..i] == s.captures[..i];
        assert !s.late ==> Tidy(s.captures, i);
      } else {
        assert t.captures[..n] == s.captures;
        NewFits(s, tag);
      }
    }
  }

  lemma NewFits(s: Html, tag: Tag)
    requires Steady(s) && tag.Captured?
    ensures var t := Pushed(s, tag); var n := |s.captures|;
      && t.captures[..n] == s.captures && Kept(t, n) && (!t.late ==> Tidy(t.captures, n))
  {
    var t := Pushed(s, tag);
    var n := |s.captures|;
    var o := Owner(s.captures);
    assert t.captures[..n] == s.captures;
    assert Joined([]) + Breaks(0) == "";
    if o.Some? {
      assert Kept(s, o.value);
      LastPlaced(s.captures[o.value].events, |s.captures[o.value].parts|, s.blocks);
    }
  }

  lemma BoundaryKeeps(s: Html)
    requires Steady(s)
    ensures Steady(Boundary(s))
  {
    hide Lazy;
    forall i | 0 <= i < |s.captures| && Owns(s.captures[i])
      ensures Lazy(Boundary(s).captures[i], s.boundaries + 1)
    {
      assert Kept(s, i);
      BoundaryLazy(s.captures[i], s.boundaries);
    }
    hide Steady;
    TextKeeps(s, Boundary(s));
  }

  lemma SpacesKeep(s: Html, depth: nat)
    requires Steady(s)
    ensures Steady(SpaceAt(s, depth)) && Steady(SpaceBelow(s, depth))
  {
    hide Lazy;
    forall i | 0 <= i < |s.captures| && Owns(s.captures[i])
      ensures Lazy(s.captures[i], s.boundaries) && Lazy(Spaced1(s.captures[i]), s.boundaries)
    {
      assert Kept(s, i);
      SpaceLazy(s.captures[i], s.boundaries);
    }
    hide Steady;
    TextKeeps(s, SpaceAt(s, depth));
    TextKeeps(s, SpaceBelow(s, depth));
  }

  lemma DataKeeps(s: Html, text: string)
    requires Steady(s)
    ensures Steady(OnData(s, text))
  {
    hide Lazy;
    forall i | 0 <= i < |s.captures| && Owns(s.captures[i])
      ensures Lazy(s.captures[i], s.boundaries) && Lazy(Synced(s.captures[i], s.boundaries, text), s.boundaries)
    {
      assert Kept(s, i);
      SyncedLazy(s.captures[i], s.boundaries, text);
    }
    if s.suppressed == [] && s.hidden == [] {
      hide Steady;
      TextKeeps(s, OnData(s, text));
    }
  }

  // ----- closing captures

  /** Closing this capture weaves its text around its events. */
  predicate Weaves(c: Capture, pgn: string -> Option<nat>) {
    && Owns(c) && Splits(c.events)
    && (c.kind == ItemText || (Compact(Joined(c.parts)) != "" && (c.kind == PreText ==> pgn(Joined(c.parts)).None?)))
  }

  lemma WovenExactly(s: Html, c: Capture)
    requires Numbered(s.blocks, s.made) && Placed(c.events, |c.parts|, s.blocks) && !s.failed
    ensures Grown(s, Woven(s, c)) && (Woven(s, c).failed <==> !InOrder(c.events, 0))
  {
    hide Weave, Grown, Placed, InOrder, Numbered;
    GrownSelf(s);
    WeaveExactly(s, c.kind, c.parts, c.events, 0, false);
    if Weave(s, c.kind, c.parts, c.events, 0, false).Some? {
      WeaveCaptures(s, c.kind, c.parts, c.events, 0, false);
    } else {
      RaisedGrows(s);
    }
  }

  lemma RaisedGrows(s: Html)
    requires Grown(s, s)
    ensures Grown(s, Raised(s))
  {
  }

  lemma ItemExactly(s: Html, c: Capture)
    requires Numbered(s.blocks, s.made) && Placed(c.events, |c.parts|, s.blocks) && !s.failed && c.events != []
    ensures Grown(s, FinishItem(s, c)) && (FinishItem(s, c).failed <==> !InOrder(c.events, 0))
  {
    hide Woven, Flushed, Grown, InOrder, Numbered, Anchored;
    if !InTopList(s, c) {
      WovenExactly(s, c);
    } else {
      var l := s.lists[|s.lists| - 1];
      FlushedGrows(s, c.events[0].block, l.items);
      FlushedCaptures(s, c.events[0].block, l.items);
      var t := Flushed(s, c.events[0].block, l.items).value;
      PlacedKept(c.events, |c.parts|, |c.parts|, s, t);
      GrownNumbered(s, t);
      var u := t.(lists := s.lists[|s.lists| - 1 := l.(items := [], unsupported := true)]);
      WovenExactly(u, c);
      SameBlocksGrow(s, t, u);
      GrownTwice(s, u, Woven(u, c));
    }
  }

  lemma SameBlocksGrow(s: Html, t: Html, u: Html)
    requires Grown(s, t) && u.blocks == t.blocks && u.made == t.made
    ensures Grown(s, u)
  {
  }

  lemma SplitsSome(events: seq<Inline>)
    requires Splits(events)
    ensures events != []
  {
  }

  /** Closing a capture keeps the blocks published before, in their order, and raises exactly when it must weave events
      that are out of order. */
  lemma FinishExactly(s: Html, c: Capture, pgn: string -> Option<nat>)
    requires Numbered(s.blocks, s.made) && Placed(c.events, |c.parts|, s.blocks) && !s.failed
    ensures Grown(s, FinishCapture(s, c, pgn))
    ensures FinishCapture(s, c, pgn).failed <==> Weaves(c, pgn) && !InOrder(c.events, 0)
  {
    hide Compact, Joined, Woven, FinishItem, Slots, Grown, Placed, InOrder, Numbered, Splits, Publish;
    GrownSelf(s);
    WovenExactly(s, c);
    if Splits(c.events) {
      SplitsSome(c.events);
      ItemExactly(s, c);
    }
    var text := Compact(Joined(c.parts));
    PublishGrows(s, HeadingBlock, text);
    PublishGrows(s, Paragraph, text);
    PublishGrows(s, Paragraph, "\U{2022} " + text);
    PublishFails(s, HeadingBlock, text);
    PublishFails(s, Paragraph, text);
    PublishFails(s, Paragraph, "\U{2022} " + text);
    var n := pgn(Joined(c.parts));
    if n.Some? {
      SlotsGrow(s, n.value);
      SlotsCaptures(s, n.value);
    }
    if InTopList(s, c) {
      SameBlocksGrow(s, s, WithTopList(s, s.lists[|s.lists| - 1].(items := s.lists[|s.lists| - 1].items + [text])));
    }
  }

  lemma PublishFails(s: Html, kind: BlockKind, text: string)
    ensures Publish(s, kind, text).failed == s.failed
  {
  }

  /** Closing the topmost capture keeps everything. */
  lemma FinishTopKeeps(s: Html, pgn: string -> Option<nat>)
    requires Steady(s) && !s.failed && s.captures != []
    ensures Steady(FinishTop(s, pgn)) && Grown(s, FinishTop(s, pgn))
  {
    var n := |s.captures| - 1;
    var c := s.captures[n];
    var p := s.(captures := s.captures[..n]);
    var t := FinishCapture(p, c, pgn);
    assert Kept(s, n) && (!s.late ==> Tidy(s.captures, n));
    PopKeeps(s);
    FinishExactly(p, c, pgn);
    FinishTouches(p, c, pgn);
    hide FinishCapture, InOrder, Grown, Steady, LastResume, Numbered, Kept;
    BlocksKeep(p, t);
    SameStartGrows(s, p, t);
    if !t.failed && c.parent.Some? && |t.blocks| > c.firstBlock {
      var o := c.parent.value;
      var forces := Splits(c.events) || HasSlot(t.blocks[c.firstBlock..]);
      var e := Inline(c.parentPart, t.blocks[c.firstBlock].serial, true, forces, Some(|t.captures[o].parts|));
      assert Anchored(t.blocks, e.block);
      var l := c.parentPart < LastResume(t.captures[o].events, 0);
      LateKeeps(t, o, e, l);
      SameBlocksGrow(s, t, Record(t, o, e).(late := t.late || l));
    }
  }

  lemma LateKeeps(t: Html, o: nat, e: Inline, l: bool)
    requires Steady(t) && Recordable(t, o, e) && (l <==> e.part < LastResume(t.captures[o].events, 0))
    ensures Steady(Record(t, o, e).(late := t.late || l))
  {
    hide Steady, Anchored, Resume, LastResume;
    if l || t.late {
      NowLate(t);
      RecordKeeps(t.(late := true), o, e);
    } else {
      RecordKeeps(t, o, e);
    }
  }

  lemma NowLate(s: Html)
    requires Steady(s)
    ensures Steady(s.(late := true))
  {
    hide Nested, Placed, Lazy, Numbered;
    var t := s.(late := true);
    forall i | 0 <= i < |t.captures|
      ensures Kept(t, i)
    {
      assert Kept(s, i);
    }
  }

  lemma SameStartGrows(s: Html, p: Html, t: Html)
    requires Grown(p, t) && p.blocks == s.blocks && p.made == s.made
    ensures Grown(s, t)
  {
  }

  lemma {:induction false} FinishDownKeeps(s: Html, n: nat, pgn: string -> Option<nat>)
    requires Steady(s) && n <= |s.captures|
    ensures Steady(FinishDown(s, n, pgn)) && Grown(s, FinishDown(s, n, pgn))
    decreases |s.captures|
  {
    SteadyNumbered(s);
    GrownSelf(s);
    if !s.failed && |s.captures| > n {
      FinishTopTouches(s, pgn);
      FinishTopKeeps(s, pgn);
      hide FinishTop, Steady, Grown;
      FinishDownKeeps(FinishTop(s, pgn), n, pgn);
      GrownTwice(s, FinishTop(s, pgn), FinishDown(s, n, pgn));
    }
  }

  lemma SteadyNumbered(s: Html)
    requires Steady(s)
    ensures Numbered(s.blocks, s.made)
  {
  }

  // ----- every step

  /** Fields that no capture or block depends on may change freely. */
  lemma OtherFieldsKeep(s: Html, t: Html)
    requires Steady(s) && t.captures == s.captures && t.boundaries == s.boundaries && t.blocks == s.blocks
      && t.made == s.made
    requires t.late == s.late && t.failed == s.failed
    ensures Steady(t) && Grown(s, t)
  {
    SteadyNumbered(s);
    GrownSelf(s);
    SameBlocksGrow(s, s, t);
    BlocksKeep(s, t);
  }

  predicate Onward(s: Html, t: Html) {
    Steady(t) && Grown(s, t)
  }

  lemma OnwardTwice(s: Html, t: Html, u: Html)
    requires Onward(s, t) && Onward(t, u)
    ensures Onward(s, u)
  {
    GrownTwice(s, t, u);
  }

  lemma TextOnward(s: Html, t: Html)
    requires Steady(s) && Steady(t) && t.blocks == s.blocks && t.made == s.made
    ensures Onward(s, t)
  {
    SteadyNumbered(s);
    GrownSelf(s);
    SameBlocksGrow(s, s, t);
  }

  /** An event at the end of the topmost owner's parts keeps everything. */
  lemma LatestKeeps(t: Html, o: nat, block: nat)
    requires Steady(t) && Owner(t.captures) == Some(o) && Anchored(t.blocks, block)
    ensures Steady(Record(t, o, Inline(|t.captures[o].parts|, block, false, false, None)))
  {
    assert Kept(t, o);
    LastPlaced(t.captures[o].events, |t.captures[o].parts|, t.blocks);
    var e := Inline(|t.captures[o].parts|, block, false, false, None);
    hide Steady, Anchored, LastResume, Record;
    assert Recordable(t, o, e);
    RecordKeeps(t, o, e);
  }

  lemma ShownOnward(s: Html, kind: BlockKind, text: string)
    requires Steady(s)
    ensures Onward(s, Shown(s, kind, text))
  {
    hide Steady, Grown;
    SteadyNumbered(s);
    var t := Publish(s, kind, text);
    PublishGrows(s, kind, text);
    BlocksKeep(s, t);
    var o := Owner(t.captures);
    assert t.blocks[|s.blocks|].serial == s.made;
    assert Anchored(t.blocks, s.made);
    hide Anchored, Publish;
    if o.Some? {
      LatestKeeps(t, o.value, s.made);
      SameBlocksGrow(s, t, Record(t, o.value, Inline(|t.captures[o.value].parts|, s.made, false, false, None)));
    }
  }

  lemma RichOnward(s: Html, tag: Tag, attrs: Attrs)
    requires Steady(s)
    ensures Onward(s, Rich(s, tag, attrs))
  {
    hide Steady, Grown, Shown;
    TextOnward(s, s);
    if attrs.position.Some? {
      ShownOnward(s, Chess, attrs.position.value);
    }
    ShownOnward(s, Note, attrs.alt);
  }

  lemma OpenListOnward(s: Html, ordered: bool, attrs: Attrs)
    requires Steady(s)
    ensures Onward(s, OpenList(s, ordered, attrs))
  {
    hide Steady;
    SpacesKeep(s, |s.lists|);
    var t := if s.lists != [] then SpaceAt(s, |s.lists|) else s;
    TextOnward(s, t);
    OtherFieldsKeep(t, OpenList(s, ordered, attrs));
    OnwardTwice(s, t, OpenList(s, ordered, attrs));
  }

  lemma OpenCaptureOnward(s: Html, tag: Tag, attrs: Attrs)
    requires Steady(s) && tag.Captured?
    ensures Onward(s, OpenCapture(s, tag, attrs))
  {
    var item := tag.kind == ItemText && s.lists != [];
    var t := if item && attrs.value then WithTopList(s, s.lists[|s.lists| - 1].(unsupported := true)) else s;
    var u := if item then SpaceBelow(t, |t.lists|) else t;
    hide Steady;
    OtherFieldsKeep(s, t);
    SpacesKeep(t, |t.lists|);
    PushKeeps(u, tag);
    TextOnward(s, u);
    TextOnward(u, Pushed(u, tag));
    OnwardTwice(s, u, Pushed(u, tag));
  }

  lemma OpenedOnward(s: Html, tag: Tag, attrs: Attrs)
    requires Steady(s)
    ensures Onward(s, Opened(s, tag, attrs))
  {
    hide Steady, Grown, Rich, OpenList, OpenCapture;
    var bounded := if IsBlock(tag) then Boundary(s) else s;
    BoundaryKeeps(s);
    TextOnward(s, bounded);
    RichOnward(bounded, tag, attrs);
    var rich := Rich(bounded, tag, attrs);
    OnwardTwice(s, bounded, rich);
    if tag.Listed? {
      OpenListOnward(rich, tag.ordered, attrs);
      OnwardTwice(s, rich, OpenList(rich, tag.ordered, attrs));
    } else if tag.Captured? {
      OpenCaptureOnward(rich, tag, attrs);
      OnwardTwice(s, rich, OpenCapture(rich, tag, attrs));
    }
  }

  lemma HeadLeftOnward(s: Html, pgn: string -> Option<nat>)
    requires Steady(s)
    ensures Onward(s, FinishDown(s, FirstTitle(s.captures), pgn).(head := 0))
  {
    hide Steady, Grown, FinishDown;
    var f := FinishDown(s, FirstTitle(s.captures), pgn);
    FinishDownKeeps(s, FirstTitle(s.captures), pgn);
    OtherFieldsKeep(f, f.(head := 0));
    OnwardTwice(s, f, f.(head := 0));
  }

  lemma ElementOnward(s: Html, t: Html, tag: Tag, attrs: Attrs)
    requires Onward(s, t)
    ensures Onward(s, t.(hidden := t.hidden + [tag])) && Onward(s, Opened(t, tag, attrs))
  {
    hide Steady, Grown, Opened;
    OtherFieldsKeep(t, t.(hidden := t.hidden + [tag]));
    OnwardTwice(s, t, t.(hidden := t.hidden + [tag]));
    OpenedOnward(t, tag, attrs);
    OnwardTwice(s, t, Opened(t, tag, attrs));
  }

  lemma SkippedOnward(s: Html, tag: Tag)
    requires Steady(s)
    ensures Onward(s, s) && Onward(s, s.(head := s.head + 1))
    ensures Onward(s, s.(suppressed := s.suppressed + [tag])) && Onward(s, s.(hidden := s.hidden + [tag]))
  {
    hide Steady, Grown;
    TextOnward(s, s);
    OtherFieldsKeep(s, s.(suppressed := s.suppressed + [tag]));
    OtherFieldsKeep(s, s.(hidden := s.hidden + [tag]));
    OtherFieldsKeep(s, s.(head := s.head + 1));
  }

  lemma StartOnward(s: Html, tag: Tag, attrs: Attrs, pgn: string -> Option<nat>)
    requires Steady(s)
    ensures Onward(s, OnStart(s, tag, attrs, pgn))
  {
    hide Steady, Grown, Opened, FinishDown, FirstTitle, Onward;
    SkippedOnward(s, tag);
    HeadLeftOnward(s, pgn);
    var t := if s.head > 0 && tag == Body then FinishDown(s, FirstTitle(s.captures), pgn).(head := 0) else s;
    ElementOnward(s, t, tag, attrs);
  }

  lemma CloseListOnward(s: Html, pgn: string -> Option<nat>)
    requires Steady(s) && s.lists != []
    ensures Onward(s, CloseList(s, pgn))
  {
    hide Steady, Grown, EmitList;
    var t := FinishDown(s, TopItem(s.captures, |s.lists|), pgn);
    FinishDownKeeps(s, TopItem(s.captures, |s.lists|), pgn);
    var l := t.lists[|t.lists| - 1];
    var u := t.(lists := t.lists[..|t.lists| - 1]);
    OtherFieldsKeep(t, u);
    OnwardTwice(s, t, u);
    SpacesKeep(u, |u.lists|);
    TextOnward(u, SpaceAt(u, |u.lists|));
    OnwardTwice(s, u, SpaceAt(u, |u.lists|));
    SteadyNumbered(u);
    EmitGrows(u, l);
    BlocksKeep(u, EmitList(u, l));
    OnwardTwice(s, u, EmitList(u, l));
  }

  lemma HeadEndOnward(s: Html, pgn: string -> Option<nat>)
    requires Steady(s)
    ensures Onward(s, HeadEnd(s, pgn))
  {
    hide Steady, Grown;
    var f := FinishDown(s, FirstTitle(s.captures), pgn);
    FinishDownKeeps(s, FirstTitle(s.captures), pgn);
    if f.head > 0 {
      OtherFieldsKeep(f, f.(head := f.head - 1));
      OnwardTwice(s, f, f.(head := f.head - 1));
    }
  }

  lemma BodyEndOnward(s: Html, tag: Tag, pgn: string -> Option<nat>)
    requires Steady(s)
    ensures Onward(s, BodyEnd(s, tag, pgn))
  {
    hide Steady, Grown, CloseList, Boundary;
    var t := FinishDown(s, TopTagged(s.captures, tag), pgn);
    FinishDownKeeps(s, TopTagged(s.captures, tag), pgn);
    hide FinishDown;
    var u := t;
    if tag.Listed? && t.lists != [] && t.lists[|t.lists| - 1].ordered == tag.ordered {
      u := CloseList(t, pgn);
      CloseListOnward(t, pgn);
      OnwardTwice(s, t, u);
    }
    BoundaryOnward(u);
    OnwardTwice(s, u, Boundary(u));
  }

  lemma BoundaryOnward(s: Html)
    requires Steady(s)
    ensures Onward(s, Boundary(s))
  {
    BoundaryKeeps(s);
    TextOnward(s, Boundary(s));
  }

  lemma EndOnward(s: Html, tag: Tag, pgn: string -> Option<nat>)
    requires Steady(s)
    ensures Onward(s, OnEnd(s, tag, pgn))
  {
    hide Steady, Grown, HeadEnd, BodyEnd;
    TextOnward(s, s);
    if s.suppressed != [] {
      OtherFieldsKeep(s, s.(suppressed := s.suppressed[..|s.suppressed| - 1]));
    }
    if s.hidden != [] {
      OtherFieldsKeep(s, s.(hidden := s.hidden[..|s.hidden| - 1]));
    }
    HeadEndOnward(s, pgn);
    BodyEndOnward(s, tag, pgn);
  }

  lemma StepOnward(s: Html, token: Token, pgn: string -> Option<nat>)
    requires Steady(s)
    ensures Onward(s, Step(s, token, pgn))
  {
    hide Steady, Grown, OnStart, OnEnd;
    TextOnward(s, s);
    match token
    case Start(tag, attrs) => StartOnward(s, tag, attrs, pgn);
    case End(tag) => EndOnward(s, tag, pgn);
    case Data(text) =>
      DataKeeps(s, text);
      TextOnward(s, OnData(s, text));
  }

  /** Every run of the parser keeps the invariant, and the blocks published so far in their order. */
  lemma {:induction false} RunOnward(s: Html, tokens: seq<Token>, pgn: string -> Option<nat>)
    requires Steady(s)
    ensures Onward(s, Run(s, tokens, pgn))
    decreases |tokens|
  {
    hide Steady, Grown, Step;
    TextOnward(s, s);
    if tokens != [] {
      StepOnward(s, tokens[0], pgn);
      RunOnward(Step(s, tokens[0], pgn), tokens[1..], pgn);
      OnwardTwice(s, Step(s, tokens[0], pgn), Run(s, tokens, pgn));
    }
  }

  // ----- what every stream guarantees

  lemma FreshSteady()
    ensures Steady(Fresh())
  {
  }

  /** In every reachable state the events of every open capture lie within its parts and their blocks are published:
      the lost-anchor error cannot occur. */
  lemma EventsStayPlaced(tokens: seq<Token>, pgn: string -> Option<nat>, i: nat)
    requires i < |Run(Fresh(), tokens, pgn).captures|
    ensures var s := Run(Fresh(), tokens, pgn); Placed(s.captures[i].events, |s.captures[i].parts|, s.blocks)
  {
    FreshSteady();
    RunOnward(Fresh(), tokens, pgn);
    assert Kept(Run(Fresh(), tokens, pgn), i);
  }

  /** And taking boundaries late has not changed its text: it compacts as if each had been appended at once. */
  lemma LateBoundariesAgree(tokens: seq<Token>, pgn: string -> Option<nat>, i: nat)
    requires i < |Run(Fresh(), tokens, pgn).captures| && Owns(Run(Fresh(), tokens, pgn).captures[i])
    ensures var c := Run(Fresh(), tokens, pgn).captures[i]; Compact(Joined(c.parts)) == Compact(c.eager)
  {
    FreshSteady();
    RunOnward(Fresh(), tokens, pgn);
    var s := Run(Fresh(), tokens, pgn);
    assert Kept(s, i);
    LazyCompacts(s.captures[i], s.boundaries);
  }

  /** What the two laws say of every open capture. */
  predicate Intact(s: Html) {
    forall i :: 0 <= i < |s.captures| ==>
      var c := s.captures[i];
      Placed(c.events, |c.parts|, s.blocks) && (Owns(c) ==> Compact(Joined(c.parts)) == Compact(c.eager))
  }

  lemma SteadyIntact(s: Html)
    requires Steady(s)
    ensures Intact(s)
  {
    hide Placed, Lazy, Compact, Joined;
    forall i | 0 <= i < |s.captures|
      ensures Placed(s.captures[i].events, |s.captures[i].parts|, s.blocks)
      ensures Owns(s.captures[i]) ==> Compact(Joined(s.captures[i].parts)) == Compact(s.captures[i].eager)
    {
      assert Kept(s, i);
      if Owns(s.captures[i]) {
        LazyCompacts(s.captures[i], s.boundaries);
      }
    }
  }

  /** Published blocks are never lost or reordered by what follows. */
  lemma BlocksStay(first: seq<Token>, more: seq<Token>, pgn: string -> Option<nat>)
    ensures var s := Run(Fresh(), first, pgn); Elder(Run(s, more, pgn).blocks, s.made) == s.blocks
  {
    FreshSteady();
    RunOnward(Fresh(), first, pgn);
    RunOnward(Run(Fresh(), first, pgn), more, pgn);
  }

  /** Only in a state where some capture was recorded behind later content has a stream, or its end, raised an error. */
  lemma FailureIsLate(tokens: seq<Token>, pgn: string -> Option<nat>)
    ensures var s := Run(Fresh(), tokens, pgn);
      (s.failed ==> s.late) && (OnClose(s, pgn).failed ==> OnClose(s, pgn).late)
  {
    hide Steady, Grown, Run, OnClose;
    FreshSteady();
    RunOnward(Fresh(), tokens, pgn);
    var s := Run(Fresh(), tokens, pgn);
    SteadyFails(s);
    CloseFails(s, pgn);
  }

  lemma CloseFails(s: Html, pgn: string -> Option<nat>)
    requires Steady(s)
    ensures OnClose(s, pgn).failed ==> OnClose(s, pgn).late
  {
    hide Steady, Grown;
    SteadyFails(s);
    var t := s.(head := 0, suppressed := [], hidden := []);
    OtherFieldsKeep(s, t);
    FinishDownKeeps(t, 0, pgn);
    var u := FinishDown(t, 0, pgn);
    SteadyFails(u);
    hide FinishDown;
    EmitListsFails(u);
  }

  lemma SteadyFails(s: Html)
    requires Steady(s)
    ensures s.failed ==> s.late
  {
  }

  lemma {:induction false} EmitListsFails(s: Html)
    ensures EmitLists(s).failed == s.failed && EmitLists(s).late == s.late
    decreases |s.lists|
  {
    if s.lists != [] {
      EmitListsFails(EmitList(s.(lists := s.lists[..|s.lists| - 1]), s.lists[|s.lists| - 1].(unsupported := true)));
    }
  }

  // ----- how one token changes the stack of captures

  predicate OpensTitle(t: Token) {
    t.Start? && IsTitle(t.tag)
  }

  predicate SameRole(c: Capture, d: Capture) {
    c.kind == d.kind && c.parent == d.parent
  }

  /** t keeps some of the captures of s, from the bottom. */
  predicate Prefixed(s: Html, t: Html) {
    |t.captures| <= |s.captures| && forall i :: 0 <= i < |t.captures| ==> SameRole(s.captures[i], t.captures[i])
  }

  /** t has the captures of s and one more, owned by the topmost owner of s. */
  predicate PushedOn(s: Html, t: Html, kind: CaptureKind) {
    && |t.captures| == |s.captures| + 1
    && (forall i :: 0 <= i < |s.captures| ==> SameRole(s.captures[i], t.captures[i]))
    && t.captures[|s.captures|].kind == kind && t.captures[|s.captures|].parent == Owner(s.captures)
  }

  /** A start tag that reaches the stack. */
  predicate Takes(s: Html, token: Token) {
    token.Start? && token.tag.Captured? && s.suppressed == [] && s.hidden == [] && !token.attrs.hidden
  }

  lemma FinishTopShape(s: Html, pgn: string -> Option<nat>)
    requires s.captures != []
    ensures Prefixed(s, FinishTop(s, pgn))
  {
    FinishTouches(s.(captures := s.captures[..|s.captures| - 1]), s.captures[|s.captures| - 1], pgn);
    hide FinishCapture;
  }

  lemma {:induction false} FinishDownShape(s: Html, n: nat, pgn: string -> Option<nat>)
    requires n <= |s.captures|
    ensures Prefixed(s, FinishDown(s, n, pgn))
    decreases |s.captures|
  {
    if !s.failed && |s.captures| > n {
      FinishTopTouches(s, pgn);
      FinishTopShape(s, pgn);
      hide FinishTop;
      FinishDownShape(FinishTop(s, pgn), n, pgn);
    }
  }

  /** Captures of the same roles. */
  predicate SameRoles(s: Html, t: Html) {
    s.late == t.late && |s.captures| == |t.captures| && Prefixed(s, t)
  }

  lemma RichRoles(s: Html, tag: Tag, attrs: Attrs)
    ensures SameRoles(s, Rich(s, tag, attrs))
  {
  }

  lemma OwnerOfRoles(s: Html, t: Html)
    requires SameRoles(s, t)
    ensures Owner(s.captures) == Owner(t.captures)
  {
    OwnerByKinds(s.captures, t.captures);
  }

  lemma OpenListRoles(s: Html, ordered: bool, attrs: Attrs)
    ensures SameRoles(s, OpenList(s, ordered, attrs))
  {
  }

  lemma OpenCaptureShape(s: Html, tag: Tag, attrs: Attrs)
    requires tag.Captured?
    ensures OpenCapture(s, tag, attrs).late == s.late && PushedOn(s, OpenCapture(s, tag, attrs), tag.kind)
  {
    var item := tag.kind == ItemText && s.lists != [];
    var t := if item && attrs.value then WithTopList(s, s.lists[|s.lists| - 1].(unsupported := true)) else s;
    var u := if item then SpaceBelow(t, |t.lists|) else t;
    assert SameRoles(s, u);
    OwnerOfRoles(s, u);
  }

  lemma OpenedShape(s: Html, tag: Tag, attrs: Attrs)
    ensures Opened(s, tag, attrs).late == s.late
    ensures if tag.Captured? then PushedOn(s, Opened(s, tag, attrs), tag.kind) else Prefixed(s, Opened(s, tag, attrs))
  {
    var bounded := if IsBlock(tag) then Boundary(s) else s;
    assert SameRoles(s, bounded);
    var rich := Rich(bounded, tag, attrs);
    RichRoles(bounded, tag, attrs);
    assert SameRoles(s, rich);
    hide Rich, Boundary, OpenList, OpenCapture;
    match tag
    case Listed(ordered) => OpenListRoles(rich, ordered, attrs);
    case Captured(kind, name) =>
      OpenCaptureShape(rich, tag, attrs);
      OwnerOfRoles(s, rich);
    case _ =>
  }

  lemma StartShape(s: Html, tag: Tag, attrs: Attrs, pgn: string -> Option<nat>)
    ensures var t := OnStart(s, tag, attrs, pgn);
      Prefixed(s, t) || (Takes(s, Start(tag, attrs)) && PushedOn(s, t, tag.kind))
  {
    hide Opened, FinishDown;
    if s.head > 0 && tag == Body {
      var t := FinishDown(s, FirstTitle(s.captures), pgn).(head := 0);
      FinishDownShape(s, FirstTitle(s.captures), pgn);
      OpenedShape(t, tag, attrs);
      PrefixedTwice(s, t, Opened(t, tag, attrs));
    } else {
      OpenedShape(s, tag, attrs);
    }
  }

  lemma CloseListShape(s: Html, pgn: string -> Option<nat>)
    requires s.lists != []
    ensures Prefixed(s, CloseList(s, pgn))
  {
    hide FinishDown, EmitList;
    FinishDownShape(s, TopItem(s.captures, |s.lists|), pgn);
  }

  lemma PrefixedTwice(s: Html, t: Html, u: Html)
    requires Prefixed(s, t) && Prefixed(t, u)
    ensures Prefixed(s, u)
  {
  }

  lemma BodyEndShape(s: Html, tag: Tag, pgn: string -> Option<nat>)
    ensures Prefixed(s, BodyEnd(s, tag, pgn))
  {
    hide CloseList, FinishDown, SameRole, Boundary;
    var t := FinishDown(s, TopTagged(s.captures, tag), pgn);
    FinishDownShape(s, TopTagged(s.captures, tag), pgn);
    var closes := tag.Listed? && t.lists != [] && t.lists[|t.lists| - 1].ordered == tag.ordered;
    var u := if closes then CloseList(t, pgn) else t;
    if closes {
      CloseListShape(t, pgn);
      PrefixedTwice(s, t, u);
    }
    BoundaryRoles(u);
    PrefixedTwice(s, u, Boundary(u));
  }

  lemma BoundaryRoles(s: Html)
    ensures Prefixed(s, Boundary(s))
  {
  }

  lemma EndShape(s: Html, tag: Tag, pgn: string -> Option<nat>)
    ensures Prefixed(s, OnEnd(s, tag, pgn))
  {
    hide BodyEnd, FinishDown;
    FinishDownShape(s, FirstTitle(s.captures), pgn);
    BodyEndShape(s, tag, pgn);
  }

  /** A token closes captures from the top, or opens one that belongs to the topmost owner. */
  lemma StepShape(s: Html, token: Token, pgn: string -> Option<nat>)
    ensures var t := Step(s, token, pgn); Prefixed(s, t) || (Takes(s, token) && PushedOn(s, t, token.tag.kind))
  {
    hide OnStart, OnEnd;
    match token
    case Start(tag, attrs) => StartShape(s, tag, attrs, pgn);
    case End(tag) => EndShape(s, tag, pgn);
    case Data(text) => assert Prefixed(s, OnData(s, text));
  }

  // ----- only a title inside running text can be recorded behind later content

  /** The topmost capture is a title that published something and began before its owner's last event resumed. */
  predicate RecordsLate(s: Html) {
    s.captures != [] &&
    var c := s.captures[|s.captures| - 1];
    && !Owns(c) && c.parent.Some? && c.parent.value < |s.captures| - 1 && |s.blocks| > c.firstBlock
    && c.parentPart < LastResume(s.captures[c.parent.value].events, 0)
  }

  lemma SteadyInOrder(s: Html, i: nat)
    requires Steady(s) && !s.late && i < |s.captures|
    ensures InOrder(s.captures[i].events, 0)
  {
    assert Kept(s, i) && Tidy(s.captures, i);
  }

  /** Closing a capture puts its owner's events out of order exactly when it is such a title. */
  lemma LateExactly(s: Html, pgn: string -> Option<nat>)
    requires Steady(s) && !s.late && s.captures != []
    ensures FinishTop(s, pgn).late <==> RecordsLate(s)
    ensures RecordsLate(s) ==> !InOrder(FinishTop(s, pgn).captures[s.captures[|s.captures| - 1].parent.value].events, 0)
    ensures !RecordsLate(s) ==>
        forall i :: 0 <= i < |FinishTop(s, pgn).captures| ==> InOrder(FinishTop(s, pgn).captures[i].events, 0)
  {
    FinishTopKeeps(s, pgn);
    var n := |s.captures| - 1;
    var c := s.captures[n];
    assert Kept(s, n) && Tidy(s.captures, n);
    FinishTouches(s.(captures := s.captures[..n]), c, pgn);
    if RecordsLate(s) {
      var forces := Splits(c.events) || HasSlot(s.blocks[c.firstBlock..]);
      var o := s.captures[c.parent.value];
      var e := Inline(c.parentPart, s.blocks[c.firstBlock].serial, true, forces, Some(|o.parts|));
      InOrderSnoc(o.events, e, 0);
    } else {
      forall i | 0 <= i < |FinishTop(s, pgn).captures|
        ensures InOrder(FinishTop(s, pgn).captures[i].events, 0)
      {
        SteadyInOrder(FinishTop(s, pgn), i);
      }
    }
    hide InOrder, Steady;
  }

  /** Nothing was recorded out of order, and the titles that are open stand outside running text. */
  predicate Clear(s: Html) {
    !s.late && forall i :: 0 <= i < |s.captures| ==> Owns(s.captures[i]) || s.captures[i].parent.None?
  }

  lemma FinishTopClear(s: Html, pgn: string -> Option<nat>)
    requires Steady(s) && Clear(s) && s.captures != []
    ensures Clear(FinishTop(s, pgn))
  {
    LateExactly(s, pgn);
    FinishTopShape(s, pgn);
    hide FinishTop, Steady, InOrder;
  }

  lemma {:induction false} FinishDownClear(s: Html, n: nat, pgn: string -> Option<nat>)
    requires Steady(s) && Clear(s) && n <= |s.captures|
    ensures Clear(FinishDown(s, n, pgn))
    decreases |s.captures|
  {
    if !s.failed && |s.captures| > n {
      FinishTopTouches(s, pgn);
      FinishTopKeeps(s, pgn);
      FinishTopClear(s, pgn);
      hide FinishTop, Steady, Grown, Clear;
      FinishDownClear(FinishTop(s, pgn), n, pgn);
    }
  }

  lemma EndNotLate(s: Html, tag: Tag, pgn: string -> Option<nat>)
    requires Steady(s) && Clear(s)
    ensures !OnEnd(s, tag, pgn).late
  {
    hide Steady, Grown, FinishDown, EmitList;
    FinishDownClear(s, FirstTitle(s.captures), pgn);
    FinishDownClear(s, TopTagged(s.captures, tag), pgn);
    FinishDownKeeps(s, TopTagged(s.captures, tag), pgn);
    var t := FinishDown(s, TopTagged(s.captures, tag), pgn);
    if t.lists != [] {
      FinishDownClear(t, TopItem(t.captures, |t.lists|), pgn);
    }
  }

  lemma StepNotLate(s: Html, token: Token, pgn: string -> Option<nat>)
    requires Steady(s) && Clear(s)
    ensures !Step(s, token, pgn).late
  {
    hide Steady, OnEnd, Opened, FinishDown;
    match token
    case Start(tag, attrs) =>
      FinishDownClear(s, FirstTitle(s.captures), pgn);
      var t := if s.head > 0 && tag == Body then FinishDown(s, FirstTitle(s.captures), pgn).(head := 0) else s;
      OpenedShape(t, tag, attrs);
    case End(tag) => EndNotLate(s, tag, pgn);
    case Data(text) =>
  }

  /** The token opens a title while some text capture is open. */
  predicate TitleInText(s: Html, token: Token) {
    OpensTitle(token) && Takes(s, token) && Owner(s.captures).Some?
  }

  lemma StepClear(s: Html, token: Token, pgn: string -> Option<nat>)
    requires Steady(s) && Clear(s) && !TitleInText(s, token)
    ensures Clear(Step(s, token, pgn))
  {
    StepNotLate(s, token, pgn);
    StepShape(s, token, pgn);
    hide Steady, Step;
  }

  /** No title of the stream opens inside running text. */
  predicate TitlesApart(s: Html, tokens: seq<Token>, pgn: string -> Option<nat>)
    decreases |tokens|
  {
    tokens == [] || (!TitleInText(s, tokens[0]) && TitlesApart(Step(s, tokens[0], pgn), tokens[1..], pgn))
  }

  lemma {:induction false} RunClear(s: Html, tokens: seq<Token>, pgn: string -> Option<nat>)
    requires Steady(s) && Clear(s) && TitlesApart(s, tokens, pgn)
    ensures Clear(Run(s, tokens, pgn)) && Steady(Run(s, tokens, pgn))
    decreases |tokens|
  {
    hide Step, Steady, Grown, Clear, TitleInText;
    if tokens != [] {
      StepOnward(s, tokens[0], pgn);
      StepClear(s, tokens[0], pgn);
      RunClear(Step(s, tokens[0], pgn), tokens[1..], pgn);
    }
  }

  /** A document whose titles open outside running text, such as in its head, raises no ordering error anywhere. */
  lemma NoBoundaryError(tokens: seq<Token>, pgn: string -> Option<nat>)
    requires TitlesApart(Fresh(), tokens, pgn)
    ensures !Run(Fresh(), tokens, pgn).failed && !OnClose(Run(Fresh(), tokens, pgn), pgn).failed
  {
    FreshSteady();
    RunClear(Fresh(), tokens, pgn);
    hide Steady, Clear;
    var s := Run(Fresh(), tokens, pgn);
    ClearFails(s);
    var t := s.(head := 0, suppressed := [], hidden := []);
    OtherFieldsKeep(s, t);
    ClearOther(s, t);
    FinishDownKeeps(t, 0, pgn);
    FinishDownClear(t, 0, pgn);
    ClearFails(FinishDown(t, 0, pgn));
    EmitListsFails(FinishDown(t, 0, pgn));
  }

  lemma ClearFails(s: Html)
    requires Steady(s) && Clear(s)
    ensures !s.failed
  {
  }

  lemma ClearOther(s: Html, t: Html)
    requires Clear(s) && t.captures == s.captures && t.late == s.late
    ensures Clear(t)
  {
  }

  /** The start of a heading, paragraph, list item, table row or preformatted text. */
  predicate OpensText(t: Token) {
    t.Start? && t.tag.Captured? && t.tag.kind != TitleText
  }

  /** Every title of the stream opens before any text does. */
  predicate TitlesFirst(tokens: seq<Token>) {
    forall i, j :: 0 <= i < j < |tokens| && OpensTitle(tokens[j]) ==> !OpensText(tokens[i])
  }

  lemma {:induction false} TitlesFirstApart(s: Html, tokens: seq<Token>, pgn: string -> Option<nat>)
    requires TitlesFirst(tokens)
    requires Owner(s.captures).None? || forall i :: 0 <= i < |tokens| ==> !OpensTitle(tokens[i])
    ensures TitlesApart(s, tokens, pgn)
    decreases |tokens|
  {
    if tokens != [] {
      StepShape(s, tokens[0], pgn);
      var t := Step(s, tokens[0], pgn);
      hide Step;
      assert forall i :: 0 <= i < |tokens[1..]| ==> tokens[1..][i] == tokens[i + 1];
      TitlesFirstApart(t, tokens[1..], pgn);
    }
  }

  /** In particular a document all of whose titles come before its text is safe, read token by token. */
  lemma TitlesFirstAreSafe(tokens: seq<Token>, pgn: string -> Option<nat>)
    requires TitlesFirst(tokens)
    ensures !Run(Fresh(), tokens, pgn).failed && !OnClose(Run(Fresh(), tokens, pgn), pgn).failed
  {
    TitlesFirstApart(Fresh(), tokens, pgn);
    NoBoundaryError(tokens, pgn);
  }

  // ----- exactly when a run fails

  /** Closing down to n captures comes to one whose events are out of order and must be woven. */
  predicate ClosesDisorder(s: Html, n: nat, pgn: string -> Option<nat>)
    requires n <= |s.captures|
    decreases |s.captures|
  {
    |s.captures| > n &&
    var c := s.captures[|s.captures| - 1];
    || (Weaves(c, pgn) && !InOrder(c.events, 0))
    || (FinishTopTouches(s, pgn); ClosesDisorder(FinishTop(s, pgn), n, pgn))
  }

  lemma FinishTopExactly(s: Html, pgn: string -> Option<nat>)
    requires Steady(s) && !s.failed && s.captures != []
    ensures var c := s.captures[|s.captures| - 1]; FinishTop(s, pgn).failed <==> Weaves(c, pgn) && !InOrder(c.events, 0)
  {
    var n := |s.captures| - 1;
    assert Kept(s, n);
    FinishExactly(s.(captures := s.captures[..n]), s.captures[n], pgn);
    hide FinishCapture, Steady, Weaves, InOrder;
  }

  lemma {:induction false} FinishDownExactly(s: Html, n: nat, pgn: string -> Option<nat>)
    requires Steady(s) && !s.failed && n <= |s.captures|
    ensures FinishDown(s, n, pgn).failed <==> ClosesDisorder(s, n, pgn)
    decreases |s.captures|
  {
    if |s.captures| > n {
      FinishTopTouches(s, pgn);
      FinishTopKeeps(s, pgn);
      FinishTopExactly(s, pgn);
      hide FinishTop, Steady, Grown, Weaves, InOrder;
      if !FinishTop(s, pgn).failed {
        FinishDownExactly(FinishTop(s, pgn), n, pgn);
      }
    }
  }

  /** The captures the end of an element closes, and those the end of its list then closes. */
  predicate EndDisorders(s: Html, tag: Tag, pgn: string -> Option<nat>) {
    var n := TopTagged(s.captures, tag);
    var t := FinishDown(s, n, pgn);
    || ClosesDisorder(s, n, pgn)
    || (tag.Listed? && t.lists != [] && t.lists[|t.lists| - 1].ordered == tag.ordered
        && ClosesDisorder(t, TopItem(t.captures, |t.lists|), pgn))
  }

  /** The token closes a capture whose events are out of order and must be woven. */
  predicate Disorders(s: Html, token: Token, pgn: string -> Option<nat>) {
    s.suppressed == [] && s.hidden == [] &&
    match token
    case Start(tag, attrs) => s.head > 0 && tag == Body && ClosesDisorder(s, FirstTitle(s.captures), pgn)
    case End(tag) =>
      !tag.Suppressed? &&
      (if tag == Head then ClosesDisorder(s, FirstTitle(s.captures), pgn)
       else (s.head > 0 ==> IsTitle(tag) || tag == Meta) && EndDisorders(s, tag, pgn))
    case Data(text) => false
  }

  lemma OpenedFails(s: Html, tag: Tag, attrs: Attrs)
    ensures Opened(s, tag, attrs).failed == s.failed
  {
    hide Mapped, Owner;
  }

  lemma BodyEndExactly(s: Html, tag: Tag, pgn: string -> Option<nat>)
    requires Steady(s) && !s.failed
    ensures BodyEnd(s, tag, pgn).failed <==> EndDisorders(s, tag, pgn)
  {
    hide Steady, Grown, FinishDown, EmitList, ClosesDisorder, Mapped;
    var n := TopTagged(s.captures, tag);
    FinishDownExactly(s, n, pgn);
    FinishDownKeeps(s, n, pgn);
    var t := FinishDown(s, n, pgn);
    if !t.failed && t.lists != [] {
      FinishDownExactly(t, TopItem(t.captures, |t.lists|), pgn);
    }
  }

  lemma StepExactly(s: Html, token: Token, pgn: string -> Option<nat>)
    requires Steady(s) && !s.failed
    ensures Step(s, token, pgn).failed <==> Disorders(s, token, pgn)
  {
    hide Steady, FinishDown, ClosesDisorder, BodyEnd, EndDisorders, Opened;
    FinishDownExactly(s, FirstTitle(s.captures), pgn);
    match token
    case Start(tag, attrs) =>
      var t := if s.head > 0 && tag == Body then FinishDown(s, FirstTitle(s.captures), pgn).(head := 0) else s;
      OpenedFails(t, tag, attrs);
    case End(tag) => BodyEndExactly(s, tag, pgn);
    case Data(text) =>
  }

  predicate RunDisorders(s: Html, tokens: seq<Token>, pgn: string -> Option<nat>)
    decreases |tokens|
  {
    tokens != [] && (Disorders(s, tokens[0], pgn) || RunDisorders(Step(s, tokens[0], pgn), tokens[1..], pgn))
  }

  lemma {:induction false} RunFailsExactly(s: Html, tokens: seq<Token>, pgn: string -> Option<nat>)
    requires Steady(s) && !s.failed
    ensures Run(s, tokens, pgn).failed <==> RunDisorders(s, tokens, pgn)
    decreases |tokens|
  {
    hide Step, Steady, Grown, Disorders;
    if tokens != [] {
      StepOnward(s, tokens[0], pgn);
      StepExactly(s, tokens[0], pgn);
      var t := Step(s, tokens[0], pgn);
      if t.failed {
        FailedStays(t, tokens[1..], pgn);
      } else {
        RunFailsExactly(t, tokens[1..], pgn);
      }
    }
  }

  lemma {:induction false} FailedStays(s: Html, tokens: seq<Token>, pgn: string -> Option<nat>)
    requires s.failed
    ensures Run(s, tokens, pgn) == s
    decreases |tokens|
  {
    if tokens != [] {
      FailedStays(Step(s, tokens[0], pgn), tokens[1..], pgn);
    }
  }

  /** Some token of the document, or its end, closes a capture whose events are out of order and must be woven. */
  predicate DocumentDisorders(tokens: seq<Token>, pgn: string -> Option<nat>) {
    var s := Run(Fresh(), tokens, pgn);
    RunDisorders(Fresh(), tokens, pgn) || ClosesDisorder(s.(head := 0, suppressed := [], hidden := []), 0, pgn)
  }

  /** A document raises an ordering error exactly then. */
  lemma DocumentFailsExactly(tokens: seq<Token>, pgn: string -> Option<nat>)
    ensures OnClose(Run(Fresh(), tokens, pgn), pgn).failed <==> DocumentDisorders(tokens, pgn)
  {
    FreshSteady();
    RunOnward(Fresh(), tokens, pgn);
    RunFailsExactly(Fresh(), tokens, pgn);
    var s := Run(Fresh(), tokens, pgn);
    var t := s.(head := 0, suppressed := [], hidden := []);
    hide Steady, Grown, Run, RunDisorders, ClosesDisorder;
    if !s.failed {
      OtherFieldsKeep(s, t);
      FinishDownExactly(t, 0, pgn);
      hide FinishDown;
      EmitListsFails(FinishDown(t, 0, pgn));
    }
  }

  // ----- a title inside a list item can raise the error

  const ITEM := Captured(ItemText, 0)
  const TITLE := Captured(TitleText, 0)
  const NO_ATTRS := Attrs(false, None, "", false, false)

  /** Two lists deep, inside a title, an image is shown: `<ul><li>a<title><ul><img alt="x"></ul></title></li>`. */
  function TitledStream(): seq<Token> {
    [Start(Listed(false), NO_ATTRS), Start(ITEM, NO_ATTRS), Data("a"),
     Start(TITLE, NO_ATTRS), Start(Listed(false), NO_ATTRS),
     Start(Image, Attrs(false, None, "x", false, false)), End(Listed(false)), End(TITLE), End(ITEM)]
  }

  function OneList(): Listing {
    Listing(false, false, false, [])
  }

  function ItemAt(parts: seq<string>, events: seq<Inline>, eager: string): Capture {
    Capture(ITEM, ItemText, parts, 2, 1, events, None, 0, 0, eager)
  }

  function TitleAt(): Capture {
    Capture(TITLE, TitleText, [], 2, 0, [], Some(0), 1, 0, "")
  }

  /** The state while the title is open: only the item's parts, its events and the lists vary. */
  function Titled(item: Capture, lists: seq<Listing>, blocks: seq<Block>, boundaries: nat): Html {
    Html(blocks, |blocks|, [item, TitleAt()], lists, [], [], 0, boundaries, false, false)
  }

  function InnerList(): Listing {
    Listing(false, true, true, [])
  }

  lemma TitledItem(pgn: string -> Option<nat>)
    ensures Step(Step(Fresh(), Start(Listed(false), NO_ATTRS), pgn), Start(ITEM, NO_ATTRS), pgn) ==
      Html([], 0, [ItemAt([], [], "")], [OneList()], [], [], 0, 2, false, false)
  {
    var s1 := Step(Fresh(), Start(Listed(false), NO_ATTRS), pgn);
    assert s1 == Html([], 0, [], [OneList()], [], [], 0, 1, false, false);
  }

  lemma TitledTitle(pgn: string -> Option<nat>)
    ensures var s2 := Html([], 0, [ItemAt([], [], "")], [OneList()], [], [], 0, 2, false, false);
      Step(Step(s2, Data("a"), pgn), Start(TITLE, NO_ATTRS), pgn) == Titled(ItemAt(["a"], [], "a"), [OneList()], [], 2)
  {
    var s2 := Html([], 0, [ItemAt([], [], "")], [OneList()], [], [], 0, 2, false, false);
    var s3 := Step(s2, Data("a"), pgn);
    assert Synced(ItemAt([], [], ""), 2, "a") == ItemAt(["a"], [], "a") by {
      assert "" + "a" == "a" && [] + ["a"] == ["a"];
    }
    assert s3 == Html([], 0, [ItemAt(["a"], [], "a")], [OneList()], [], [], 0, 2, false, false);
  }

  lemma TitledOpening(pgn: string -> Option<nat>)
    ensures Run(Fresh(), TitledStream()[..4], pgn) == Titled(ItemAt(["a"], [], "a"), [OneList()], [], 2)
  {
    hide Step, Run;
    TitledItem(pgn);
    TitledTitle(pgn);
    RunFour(Fresh(), TitledStream()[..4], pgn);
  }

  lemma RunFour(s: Html, ts: seq<Token>, pgn: string -> Option<nat>)
    requires |ts| == 4
    ensures Run(s, ts, pgn) == Step(Step(Step(Step(s, ts[0], pgn), ts[1], pgn), ts[2], pgn), ts[3], pgn)
  {
    hide Step;
    var s1 := Step(s, ts[0], pgn);
    var s2 := Step(s1, ts[1], pgn);
    var s3 := Step(s2, ts[2], pgn);
    assert Run(s, ts, pgn) == Run(s1, ts[1..], pgn);
    assert Run(s1, ts[1..], pgn) == Run(s2, ts[2..], pgn);
    assert Run(s2, ts[2..], pgn) == Run(s3, ts[3..], pgn);
    assert ts[3..][1..] == [];
  }

  /** A list opens inside the title: the item gains a space. */
  lemma TitledList(s: Html, eager: string, pgn: string -> Option<nat>)
    requires s == Titled(ItemAt(["a"], [], eager), [OneList()], [], 2)
    ensures Step(s, Start(Listed(false), NO_ATTRS), pgn) ==
      Titled(ItemAt(["a", " "], [], eager + "\n" + " "), [Listing(false, false, true, []), InnerList()], [], 3)
  {
    var bounded := Boundary(s);
    assert bounded == Titled(ItemAt(["a"], [], eager + "\n"), [OneList()], [], 3);
    var spaced := SpaceAt(bounded, 1);
    assert ["a"] + [" "] == ["a", " "];
    assert spaced == Titled(ItemAt(["a", " "], [], eager + "\n" + " "), [OneList()], [], 3);
  }

  lemma TitledImage(s: Html, item: Capture, lists: seq<Listing>, pgn: string -> Option<nat>)
    requires s == Titled(item, lists, [], 3) && item.kind == ItemText && item.parts == ["a", " "] && item.events == []
    ensures Step(s, Start(Image, Attrs(false, None, "x", false, false)), pgn) ==
      Titled(item.(events := [Inline(2, 0, false, false, None)]), lists, [Block(0, Note, "x")], 3)
  {
    assert [] + [Block(0, Note, "x")] == [Block(0, Note, "x")];
    var t := Publish(s, Note, "x");
    assert t == Titled(item, lists, [Block(0, Note, "x")], 3);
    assert t.captures[..1] == [item];
    assert Owner(t.captures) == Some(0);
    var e := Inline(2, 0, false, false, None);
    assert [] + [e] == [e];
    assert Record(t, 0, e) == Titled(item.(events := [e]), lists, [Block(0, Note, "x")], 3);
  }

  lemma TitledListEnd(s: Html, item: Capture, pgn: string -> Option<nat>)
    requires s == Titled(item, [Listing(false, false, true, []), InnerList()], [Block(0, Note, "x")], 3)
    requires item.kind == ItemText && item.depth == 1 && item.tag == ITEM
    ensures Step(s, End(Listed(false)), pgn) ==
      Titled(Spaced1(item).(eager := item.eager + " " + "\n"),
             [Listing(false, false, true, [])], [Block(0, Note, "x")], 4)
  {
    assert s.captures[..1] == [item] && [item][..0] == [];
    assert TopTagged(s.captures, Listed(false)) == 2;
    assert TopItem(s.captures, 2) == 2;
    var u := s.(lists := [Listing(false, false, true, [])]);
    assert CloseList(s, pgn) == SpaceAt(u, 1);
    assert SpaceAt(u, 1) == Titled(Spaced1(item), [Listing(false, false, true, [])], [Block(0, Note, "x")], 3);
  }

  /** The title closes: it is recorded where it began, behind the image. */
  lemma TitledTitleEnd(s: Html, item: Capture, lists: seq<Listing>, pgn: string -> Option<nat>)
    requires s == Titled(item, lists, [Block(0, Note, "x")], 4)
    requires item.kind == ItemText && item.tag == ITEM && |item.parts| == 3
      && item.events == [Inline(2, 0, false, false, None)]
    ensures var t := Step(s, End(TITLE), pgn);
      && t.captures == [item.(events := [Inline(2, 0, false, false, None), Inline(1, 0, true, false, Some(3))])]
      && !t.failed && t.suppressed == [] && t.hidden == [] && t.head == 0
  {
    assert s.captures[..1] == [item];
    assert TopTagged(s.captures, TITLE) == 1;
    assert s.blocks[0..] == s.blocks;
    var t := FinishTop(s, pgn);
    assert item.events + [Inline(1, 0, true, false, Some(3))] ==
        [Inline(2, 0, false, false, None), Inline(1, 0, true, false, Some(3))];
    assert t.captures == [item.(events := item.events + [Inline(1, 0, true, false, Some(3))])];
    assert FinishDown(s, 1, pgn) == t;
  }

  /** The item closes over events that are out of order. */
  lemma ItemEndFails(s: Html, c: Capture, pgn: string -> Option<nat>)
    requires Steady(s) && !s.failed && s.suppressed == [] && s.hidden == [] && s.head == 0 && s.captures == [c]
    requires c.tag == ITEM && c.kind == ItemText
    requires c.events == [Inline(2, 0, false, false, None), Inline(1, 0, true, false, Some(3))]
    ensures Step(s, End(ITEM), pgn).failed
  {
    var p := s.(captures := []);
    assert s.captures[..0] == [];
    assert Kept(s, 0);
    assert c.events[1..] == [Inline(1, 0, true, false, Some(3))];
    assert !InOrder(c.events, 0);
    assert Splits(c.events) by {
      assert !c.events[0].structural;
    }
    FinishExactly(p, c, pgn);
    hide FinishCapture, Steady, InOrder, Splits;
    assert s.captures[..|s.captures| - 1] == [];
    var t := FinishTop(s, pgn);
    assert t.failed;
    FinishTopTouches(s, pgn);
    hide FinishTop;
    assert FinishDown(s, 0, pgn) == FinishDown(t, 0, pgn) == t;
    assert TopTagged(s.captures, ITEM) == 0;
    assert BodyEnd(s, ITEM, pgn) == t;
  }

  lemma {:induction false} RunOn(s: Html, first: seq<Token>, more: seq<Token>, pgn: string -> Option<nat>)
    ensures Run(s, first + more, pgn) == Run(Run(s, first, pgn), more, pgn)
    decreases |first|
  {
    hide Step;
    if first == [] {
      assert first + more == more;
    } else {
      assert (first + more)[1..] == first[1..] + more;
      RunOn(Step(s, first[0], pgn), first[1..], more, pgn);
    }
  }

  lemma RunFive(s: Html, ts: seq<Token>, pgn: string -> Option<nat>)
    requires |ts| == 5
    ensures Run(s, ts, pgn)
            == Step(Step(Step(Step(Step(s, ts[0], pgn), ts[1], pgn), ts[2], pgn), ts[3], pgn), ts[4], pgn)
  {
    hide Step;
    assert Run(s, ts, pgn) == Run(Step(s, ts[0], pgn), ts[1..], pgn);
    RunFour(Step(s, ts[0], pgn), ts[1..], pgn);
  }

  /** A concrete stream that raises the boundary error: the title is recorded where it began, behind the image inside
      it. */
  lemma TitleCanBreakOrder(pgn: string -> Option<nat>)
    ensures Run(Fresh(), TitledStream(), pgn).failed
  {
    var ts := TitledStream();
    assert ts == ts[..4] + ts[4..];
    RunOn(Fresh(), ts[..4], ts[4..], pgn);
    TitledOpening(pgn);
    FreshSteady();
    RunOnward(Fresh(), ts[..4], pgn);
    var s4 := Run(Fresh(), ts[..4], pgn);
    RunFive(s4, ts[4..], pgn);
    TitledEnding(s4, pgn);
  }

  lemma TitledEnding(s4: Html, pgn: string -> Option<nat>)
    requires Steady(s4) && s4 == Titled(ItemAt(["a"], [], "a"), [OneList()], [], 2)
    ensures Step(Step(Step(Step(Step(s4, Start(Listed(false), NO_ATTRS), pgn),
      Start(Image, Attrs(false, None, "x", false, false)), pgn), End(Listed(false)), pgn), End(TITLE), pgn),
      End(ITEM), pgn).failed
  {
    hide Step, Steady, Grown, Titled;
    var item5 := ItemAt(["a", " "], [], "a" + "\n" + " ");
    var lists := [Listing(false, false, true, []), InnerList()];
    TitledList(s4, "a", pgn);
    var s5 := Step(s4, Start(Listed(false), NO_ATTRS), pgn);
    TitledImage(s5, item5, lists, pgn);
    var s6 := Step(s5, Start(Image, Attrs(false, None, "x", false, false)), pgn);
    var item6 := item5.(events := [Inline(2, 0, false, false, None)]);
    TitledListEnd(s6, item6, pgn);
    var s7 := Step(s6, End(Listed(false)), pgn);
    var item7 := Spaced1(item6).(eager := item6.eager + " " + "\n");
    TitledTitleEnd(s7, item7, [Listing(false, false, true, [])], pgn);
    var s8 := Step(s7, End(TITLE), pgn);
    StepOnward(s4, Start(Listed(false), NO_ATTRS), pgn);
    StepOnward(s5, Start(Image, Attrs(false, None, "x", false, false)), pgn);
    StepOnward(s6, End(Listed(false)), pgn);
    StepOnward(s7, End(TITLE), pgn);
    ItemEndFails(s8, s8.captures[0], pgn);
  }
}
