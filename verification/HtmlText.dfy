/** What becomes of the text the importer reads (acs/book_html_import.py): a capture that splits publishes exactly the
    text outside its events, each piece directly before the block it precedes, and no word of a closed capture is
    lost. */
module HtmlText {
  import opened Base
  import opened Text
  import opened HtmlEvents
  import opened HtmlOrder

  const BULLET := "\U{2022}"

  // ----- words, list bullets aside

  function Plain(ws: seq<string>): seq<string> {
    if ws == [] then [] else (if ws[0] == BULLET then [] else [ws[0]]) + Plain(ws[1..])
  }

  /** The words of a text other than list bullets. */
  function Said(text: string): seq<string> {
    Plain(Words(text))
  }

  lemma {:induction false} PlainConcat(a: seq<string>, b: seq<string>)
    ensures Plain(a + b) == Plain(a) + Plain(b)
  {
    if a == [] {
      assert a + b == b;
    } else {
      assert (a + b)[1..] == a[1..] + b;
      PlainConcat(a[1..], b);
    }
  }

  lemma CompactWords(x: string)
    ensures Words(Compact(x)) == Words(x) && Said(Compact(x)) == Said(x)
    ensures Compact(x) == "" <==> Words(x) == []
  {
    if Words(x) != [] {
      WordsOfSpaced(Words(x));
    }
  }

  lemma BulletWords(x: string)
    ensures Words("\U{2022} " + x) == [BULLET] + Words(x) && Said("\U{2022} " + x) == Said(x)
    ensures Words(BULLET) == [BULLET] && Said(BULLET) == []
  {
    var t := "\U{2022} " + x;
    assert t[1..] == " " + x && (" " + x)[1..] == x;
    assert WordLength(t) == 1 && t[..1] == BULLET;
    assert WordLength(BULLET) == 1 && BULLET[..1] == BULLET && BULLET[1..] == [];
    PlainConcat([BULLET], Words(x));
    assert Plain([BULLET]) == [];
  }

  // ----- the text outside the events

  /** Where the text before the k-th event begins: where the event before it has resumed. */
  function From(events: seq<Inline>, k: nat): nat
    requires k <= |events|
  {
    if k == 0 then 0 else Resume(events[k - 1])
  }

  /** The text between the event before the k-th and the k-th; the last piece is what follows all events. */
  function Piece(parts: seq<string>, events: seq<Inline>, k: nat): string
    requires k <= |events|
  {
    var from := From(events, k);
    var upto := if k < |events| then events[k].part else |parts|;
    if from <= upto <= |parts| then Joined(parts[from..upto]) else ""
  }

  /** The words of the pieces from the k-th on. */
  function SaidFrom(parts: seq<string>, events: seq<Inline>, k: nat): seq<string>
    requires k <= |events|
    decreases |events| - k
  {
    Said(Piece(parts, events, k)) + (if k == |events| then [] else SaidFrom(parts, events, k + 1))
  }

  /** Each event begins where the one before it has resumed, or later, and all lie within the parts. */
  predicate Apart(parts: nat, events: seq<Inline>) {
    forall k :: 0 <= k < |events| ==> From(events, k) <= events[k].part <= Resume(events[k]) <= parts
  }

  lemma {:induction false} InOrderFrom(events: seq<Inline>, k: nat)
    requires InOrder(events, 0) && k <= |events|
    ensures InOrder(events[k..], From(events, k))
    decreases k
  {
    if k == 0 {
      assert events[0..] == events;
    } else {
      InOrderFrom(events, k - 1);
      assert events[k - 1..][1..] == events[k..];
    }
  }

  lemma InOrderApart(events: seq<Inline>, parts: nat, bs: seq<Block>)
    requires InOrder(events, 0) && Placed(events, parts, bs)
    ensures Apart(parts, events)
  {
    forall k | 0 <= k < |events|
      ensures From(events, k) <= events[k].part
    {
      InOrderFrom(events, k);
      assert events[k..][0] == events[k];
    }
  }

  // ----- the blocks a splitting capture adds

  /** A block added for the text of one piece. */
  datatype Fragment = Fragment(piece: nat, block: Block)

  /** The first text of a list item, which may be its bullet alone. */
  function Bulleted1(text: string): string {
    if text == "" then BULLET else "\U{2022} " + text
  }

  /** The text and kind of the block for a piece: only the first is a heading, or carries the bullet of a list item. */
  predicate FragmentTells(f: Fragment, first: bool, kind: CaptureKind, parts: seq<string>, events: seq<Inline>) {
    && f.piece <= |events|
    && f.block.kind == (if kind == HeadingText && first then HeadingBlock else Paragraph)
    && var text := Compact(Piece(parts, events, f.piece));
    && f.block.text == (if kind == ItemText && first then Bulleted1(text) else text)
  }

  function Pieces(frs: seq<Fragment>): set<nat> {
    set i | 0 <= i < |frs| :: frs[i].piece
  }

  /** One fragment for every piece that is not blank, in order and numbered on from `made`; a list item that begins
      with an event starts with its bullet all the same. */
  predicate Tells(frs: seq<Fragment>, kind: CaptureKind, parts: seq<string>, events: seq<Inline>, made: nat, k: nat,
                  started: bool) {
    && (forall j :: 0 <= j < |frs| ==>
          k <= frs[j].piece && frs[j].block.serial == made + j
            && FragmentTells(frs[j], !started && j == 0, kind, parts, events))
    && (forall i, j :: 0 <= i < j < |frs| ==> frs[i].piece < frs[j].piece)
    && (forall i :: k <= i <= |events| ==>
          (i in Pieces(frs) <==>
            Compact(Piece(parts, events, i)) != "" || (kind == ItemText && !started && i == k && k < |events|)))
  }

  /** The block a fragment's text precedes; the text after all events precedes none. */
  function Anchor(f: Fragment, events: seq<Inline>): Option<nat> {
    if f.piece < |events| then Some(events[f.piece].block) else None
  }

  function BlocksAt(frs: seq<Fragment>, events: seq<Inline>, anchor: Option<nat>): seq<Block> {
    if frs == [] then []
    else (if Anchor(frs[0], events) == anchor then [frs[0].block] else []) + BlocksAt(frs[1..], events, anchor)
  }

  /** Every block with the fragments that precede it directly before it. */
  function Around(bs: seq<Block>, frs: seq<Fragment>, events: seq<Inline>): seq<Block> {
    if bs == [] then [] else BlocksAt(frs, events, Some(bs[0].serial)) + [bs[0]] + Around(bs[1..], frs, events)
  }

  function LaidOut(bs: seq<Block>, frs: seq<Fragment>, events: seq<Inline>): seq<Block> {
    Around(bs, frs, events) + BlocksAt(frs, events, None)
  }

  predicate Unique(bs: seq<Block>) {
    forall i, j :: 0 <= i < j < |bs| ==> bs[i].serial != bs[j].serial
  }

  lemma {:induction false} AroundNothing(bs: seq<Block>, events: seq<Inline>)
    ensures Around(bs, [], events) == bs
  {
    if bs != [] {
      AroundNothing(bs[1..], events);
    }
  }

  lemma AtMore(f: Fragment, frs: seq<Fragment>, events: seq<Inline>, anchor: Option<nat>)
    ensures BlocksAt([f] + frs, events, anchor) ==
      (if Anchor(f, events) == anchor then [f.block] else []) + BlocksAt(frs, events, anchor)
  {
    assert ([f] + frs)[1..] == frs;
  }

  /** A fragment whose anchor is not among the blocks is not among them either. */
  lemma {:induction false} AroundElsewhere(bs: seq<Block>, f: Fragment, frs: seq<Fragment>, events: seq<Inline>)
    requires forall b :: b in bs ==> Anchor(f, events) != Some(b.serial)
    ensures Around(bs, [f] + frs, events) == Around(bs, frs, events)
  {
    hide BlocksAt, Anchor;
    if bs != [] {
      AtMore(f, frs, events, Some(bs[0].serial));
      assert [] + BlocksAt(frs, events, Some(bs[0].serial)) == BlocksAt(frs, events, Some(bs[0].serial));
      assert bs[0] in bs && forall b :: b in bs[1..] ==> b in bs;
      AroundElsewhere(bs[1..], f, frs, events);
    }
  }

  lemma {:induction false} NothingAt(frs: seq<Fragment>, events: seq<Inline>, serial: nat)
    requires forall i :: 0 <= i < |events| ==> events[i].block != serial
    ensures BlocksAt(frs, events, Some(serial)) == []
  {
    if frs != [] {
      NothingAt(frs[1..], events, serial);
    }
  }

  /** Laying out around a block just inserted is laying out one more fragment. */
  lemma {:induction false} AroundInserted(bs: seq<Block>, i: nat, f: Fragment, frs: seq<Fragment>, events: seq<Inline>)
    requires Unique(bs) && i < |bs| && Anchor(f, events) == Some(bs[i].serial)
    requires forall j :: 0 <= j < |events| ==> events[j].block != f.block.serial
    ensures Around(bs[..i] + [f.block] + bs[i..], frs, events) == Around(bs, [f] + frs, events)
  {
    hide BlocksAt, Anchor;
    var all := bs[..i] + [f.block] + bs[i..];
    AtMore(f, frs, events, Some(bs[0].serial));
    if i == 0 {
      assert all[0] == f.block && all[1..] == bs;
      NothingAt(frs, events, f.block.serial);
      AroundElsewhere(bs[1..], f, frs, events);
    } else {
      assert all[0] == bs[0] && all[1..] == bs[1..][..i - 1] + [f.block] + bs[1..][i - 1..];
      AroundInserted(bs[1..], i - 1, f, frs, events);
    }
  }

  // ----- weaving lays out the pieces

  predicate Books(s: Html) {
    Numbered(s.blocks, s.made) && Unique(s.blocks)
  }

  lemma PublishBooks(s: Html, kind: BlockKind, text: string)
    requires Books(s)
    ensures Books(Publish(s, kind, text))
  {
  }

  lemma InsertBooks(s: Html, anchor: nat, kind: BlockKind, text: string) returns (i: nat)
    requires Books(s) && InsertBefore(s, anchor, kind, text).Some?
    ensures i < |s.blocks| && s.blocks[i].serial == anchor
    ensures var t := InsertBefore(s, anchor, kind, text).value;
      && t.blocks == s.blocks[..i] + [Block(s.made, kind, text)] + s.blocks[i..] && t.made == s.made + 1
      && Books(t)
  {
    i := IndexOf(s.blocks, anchor).value;
    var t := InsertBefore(s, anchor, kind, text).value;
    assert forall j :: 0 <= j < |t.blocks| ==>
        t.blocks[j] == if j < i then s.blocks[j] else if j == i then Block(s.made, kind, text) else s.blocks[j - 1];
  }

  predicate AllAnchored(bs: seq<Block>, events: seq<Inline>) {
    forall i :: 0 <= i < |events| ==> Anchored(bs, events[i].block)
  }

  lemma InsertAnchors(s: Html, events: seq<Inline>, i: nat, b: Block)
    requires i <= |s.blocks| && AllAnchored(s.blocks, events)
    ensures AllAnchored(s.blocks[..i] + [b] + s.blocks[i..], events)
  {
    var all := s.blocks[..i] + [b] + s.blocks[i..];
    forall k | 0 <= k < |events|
      ensures Anchored(all, events[k].block)
    {
      var j :| 0 <= j < |s.blocks| && s.blocks[j].serial == events[k].block;
      assert all[if j < i then j else j + 1] == s.blocks[j];
    }
  }

  lemma NewSerial(s: Html, events: seq<Inline>)
    requires Books(s) && AllAnchored(s.blocks, events)
    ensures forall j :: 0 <= j < |events| ==> events[j].block != s.made
  {
    forall j | 0 <= j < |events|
      ensures events[j].block != s.made
    {
      var i :| 0 <= i < |s.blocks| && s.blocks[i].serial == events[j].block;
      assert s.blocks[i] in s.blocks;
    }
  }

  lemma PieceAt(parts: seq<string>, events: seq<Inline>, k: nat)
    requires Apart(|parts|, events) && k <= |events|
    ensures From(events, k) <= |parts|
    ensures k < |events| ==> From(events, k) <= events[k].part <= Resume(events[k]) <= |parts|
    ensures Piece(parts, events, k) == Joined(parts[From(events, k)..if k < |events| then events[k].part else |parts|])
  {
    if k > 0 {
      assert Resume(events[k - 1]) <= |parts|;
    }
  }

  /** What Weave does at the k-th piece. */
  predicate Makes(kind: CaptureKind, parts: seq<string>, events: seq<Inline>, k: nat, started: bool)
    requires k <= |events|
  {
    Compact(Piece(parts, events, k)) != "" || (kind == ItemText && !started && k < |events|)
  }

  function Fragmented(kind: CaptureKind, parts: seq<string>, events: seq<Inline>, k: nat, started: bool, serial: nat)
    : Fragment
    requires k <= |events|
  {
    var text := Compact(Piece(parts, events, k));
    var shown := if text == "" then BULLET else Projected(kind, started, text);
    Fragment(k, Block(serial, ProjectedKind(kind, started), shown))
  }

  lemma FragmentedTells(kind: CaptureKind, parts: seq<string>, events: seq<Inline>, k: nat, started: bool, serial: nat)
    requires k <= |events| && Makes(kind, parts, events, k, started)
    ensures FragmentTells(Fragmented(kind, parts, events, k, started, serial), !started, kind, parts, events)
  {
  }

  lemma TellsMore(f: Fragment, frs: seq<Fragment>, kind: CaptureKind, parts: seq<string>, events: seq<Inline>,
                  made: nat, k: nat, started: bool)
    requires k < |events| && f.piece == k && f.block.serial == made && Makes(kind, parts, events, k, started)
    requires FragmentTells(f, !started, kind, parts, events)
    requires Tells(frs, kind, parts, events, made + 1, k + 1, true)
    ensures Tells([f] + frs, kind, parts, events, made, k, started)
  {
    var all := [f] + frs;
    assert Pieces(all) == {k} + Pieces(frs) by {
      assert all[0].piece == k;
      assert forall i :: 0 <= i < |frs| ==> all[i + 1] == frs[i];
    }
    hide FragmentTells, Piece, Compact;
  }

  lemma TellsSkipped(frs: seq<Fragment>, kind: CaptureKind, parts: seq<string>, events: seq<Inline>, made: nat, k: nat,
                     started: bool)
    requires k < |events| && !Makes(kind, parts, events, k, started)
    requires Tells(frs, kind, parts, events, made, k + 1, started)
    ensures Tells(frs, kind, parts, events, made, k, started)
  {
    hide FragmentTells, Piece, Compact;
  }

  lemma TellsLast(kind: CaptureKind, parts: seq<string>, events: seq<Inline>, made: nat, started: bool)
    ensures var n := |events|; var f := Fragmented(kind, parts, events, n, started, made);
      if Makes(kind, parts, events, n, started) then Tells([f], kind, parts, events, made, n, started)
      else Tells([], kind, parts, events, made, n, started)
  {
    var n := |events|;
    var f := Fragmented(kind, parts, events, n, started, made);
    if Makes(kind, parts, events, n, started) {
      FragmentedTells(kind, parts, events, n, started, made);
      OneTells(f, kind, parts, events, made, started);
    }
    hide FragmentTells, Piece, Compact, Fragmented;
  }

  lemma OneTells(f: Fragment, kind: CaptureKind, parts: seq<string>, events: seq<Inline>, made: nat, started: bool)
    requires f.piece == |events| && f.block.serial == made && FragmentTells(f, !started, kind, parts, events)
    requires Makes(kind, parts, events, |events|, started)
    ensures Tells([f], kind, parts, events, made, |events|, started)
  {
    assert [f][0].piece == |events|;
    assert Pieces([f]) == {|events|};
    hide FragmentTells, Piece, Compact;
  }

  lemma WeaveLast(s: Html, kind: CaptureKind, parts: seq<string>, events: seq<Inline>, started: bool)
    requires Apart(|parts|, events)
    ensures From(events, |events|) <= |parts|
    ensures var n := |events|;
      var w := Weave(s, kind, parts, [], From(events, n), started);
      w == Some(if Makes(kind, parts, events, n, started)
                then s.(blocks := s.blocks + [Fragmented(kind, parts, events, n, started, s.made).block],
                        made := s.made + 1)
                else s)
  {
    PieceAt(parts, events, |events|);
    var from := From(events, |events|);
    assert parts[from..] == parts[from..|parts|];
    hide Compact, Joined, Piece;
  }

  lemma WeaveStep(s: Html, kind: CaptureKind, parts: seq<string>, events: seq<Inline>, k: nat, started: bool)
    requires Apart(|parts|, events) && k < |events|
    ensures From(events, k) <= |parts| && From(events, k + 1) <= |parts|
    ensures Weave(s, kind, parts, events[k..], From(events, k), started) ==
      if !Makes(kind, parts, events, k, started)
      then Weave(s, kind, parts, events[k + 1..], From(events, k + 1), started)
      else
        var b := Fragmented(kind, parts, events, k, started, s.made).block;
        var t := InsertBefore(s, events[k].block, b.kind, b.text);
        if t.None? then None else Weave(t.value, kind, parts, events[k + 1..], From(events, k + 1), true)
  {
    PieceAt(parts, events, k);
    PieceAt(parts, events, k + 1);
    assert events[k..][0] == events[k] && events[k..][1..] == events[k + 1..];
    hide Compact, Joined, Piece, InsertBefore;
  }

  // ----- no word is lost in weaving

  /** The words of fragments, in their order. */
  function SaidIn(frs: seq<Fragment>): seq<string> {
    if frs == [] then [] else Said(frs[0].block.text) + SaidIn(frs[1..])
  }

  /** The words of blocks, in whatever order they stand. */
  function Spoken(bs: seq<Block>): multiset<string> {
    if bs == [] then multiset{} else multiset(Said(bs[0].text)) + Spoken(bs[1..])
  }

  lemma {:induction false} SpokenConcat(a: seq<Block>, b: seq<Block>)
    ensures Spoken(a + b) == Spoken(a) + Spoken(b)
  {
    hide Said;
    if a == [] {
      assert a + b == b;
    } else {
      assert (a + b)[1..] == a[1..] + b;
      SpokenConcat(a[1..], b);
    }
  }

  lemma SpokenOne(b: Block)
    ensures Spoken([b]) == multiset(Said(b.text))
  {
    assert [b][1..] == [];
  }

  lemma SpokenInserted(bs: seq<Block>, i: nat, b: Block)
    requires i <= |bs|
    ensures Spoken(bs[..i] + [b] + bs[i..]) == Spoken(bs) + multiset(Said(b.text))
  {
    hide Said, Spoken;
    SpokenOne(b);
    SpokenConcat(bs[..i] + [b], bs[i..]);
    SpokenConcat(bs[..i], [b]);
    SpokenConcat(bs[..i], bs[i..]);
    assert bs[..i] + bs[i..] == bs;
  }

  lemma SpokenAppended(bs: seq<Block>, b: Block)
    ensures Spoken(bs + [b]) == Spoken(bs) + multiset(Said(b.text))
  {
    SpokenInserted(bs, |bs|, b);
    assert bs[..|bs|] + [b] + bs[|bs|..] == bs + [b];
  }

  lemma FragmentSays(kind: CaptureKind, parts: seq<string>, events: seq<Inline>, k: nat, started: bool, serial: nat)
    requires k <= |events|
    ensures Makes(kind, parts, events, k, started) ==>
        Said(Fragmented(kind, parts, events, k, started, serial).block.text) == Said(Piece(parts, events, k))
    ensures !Makes(kind, parts, events, k, started) ==> Said(Piece(parts, events, k)) == []
  {
    var piece := Piece(parts, events, k);
    CompactWords(piece);
    BulletWords(Compact(piece));
    hide Piece, Compact, Words;
  }

  lemma SaidMore(f: Fragment, frs: seq<Fragment>)
    ensures SaidIn([f] + frs) == Said(f.block.text) + SaidIn(frs)
  {
    assert ([f] + frs)[1..] == frs;
  }

  /** Weaving puts every piece that is not blank directly before the block of the event it precedes, and the last
      behind all. */
  lemma {:induction false} WeaveLays(s: Html, kind: CaptureKind, parts: seq<string>, events: seq<Inline>, k: nat,
                                     started: bool) returns (frs: seq<Fragment>)
    requires k <= |events| && Apart(|parts|, events) && Books(s) && AllAnchored(s.blocks, events)
    ensures From(events, k) <= |parts| && Weave(s, kind, parts, events[k..], From(events, k), started).Some?
    ensures var t := Weave(s, kind, parts, events[k..], From(events, k), started).value;
      Books(t) && t.made == s.made + |frs| && t.blocks == LaidOut(s.blocks, frs, events)
    ensures Tells(frs, kind, parts, events, s.made, k, started)
    ensures SaidIn(frs) == SaidFrom(parts, events, k)
    decreases |events| - k
  {
    hide Said, Piece, Around, BlocksAt;
    hide Weave, Makes, Fragmented, InsertBefore, Tells, FragmentTells, Apart, Books, AllAnchored, From;
    var f := Fragmented(kind, parts, events, k, started, s.made);
    FragmentSays(kind, parts, events, k, started, s.made);
    if k == |events| {
      assert events[k..] == [];
      WeaveLast(s, kind, parts, events, started);
      TellsLast(kind, parts, events, s.made, started);
      frs := if Makes(kind, parts, events, k, started) then [f] else [];
      LastLays(s, kind, parts, events, started, frs);
    } else {
      WeaveStep(s, kind, parts, events, k, started);
      if Makes(kind, parts, events, k, started) {
        FragmentedShape(kind, parts, events, k, started, s.made);
        AnchorFound(s, events[k].block, f.block.kind, f.block.text) by {
          assert AllAnchored(s.blocks, events);
        }
        AnchoredAt(s.blocks, events, k);
        var i := InsertBooks(s, events[k].block, f.block.kind, f.block.text);
        var t := InsertBefore(s, events[k].block, f.block.kind, f.block.text).value;
        InsertAnchors(s, events, i, f.block);
        var more := WeaveLays(t, kind, parts, events, k + 1, true);
        frs := [f] + more;
        InsertLays(s, events, i, f, more);
        SaidMore(f, more);
        FragmentedTells(kind, parts, events, k, started, s.made);
        TellsMore(f, more, kind, parts, events, s.made, k, started);
      } else {
        frs := WeaveLays(s, kind, parts, events, k + 1, started);
        TellsSkipped(frs, kind, parts, events, s.made, k, started);
      }
    }
  }

  /** And the words of the blocks are those from before and those of the pieces. */
  lemma {:induction false} WeaveSpeaks(s: Html, kind: CaptureKind, parts: seq<string>, events: seq<Inline>, k: nat,
                                       started: bool)
    requires k <= |events| && Apart(|parts|, events) && From(events, k) <= |parts|
    requires Weave(s, kind, parts, events[k..], From(events, k), started).Some?
    ensures Spoken(Weave(s, kind, parts, events[k..], From(events, k), started).value.blocks)
         == Spoken(s.blocks) + multiset(SaidFrom(parts, events, k))
    decreases |events| - k
  {
    hide Weave, Makes, Fragmented, InsertBefore, Apart, From, Said, Piece, Spoken;
    var f := Fragmented(kind, parts, events, k, started, s.made);
    FragmentSays(kind, parts, events, k, started, s.made);
    if k == |events| {
      assert events[k..] == [];
      WeaveLast(s, kind, parts, events, started);
      SpokenAppended(s.blocks, f.block);
    } else {
      WeaveStep(s, kind, parts, events, k, started);
      if Makes(kind, parts, events, k, started) {
        InsertSpeaks(s, events[k].block, f.block.kind, f.block.text);
        var t := InsertBefore(s, events[k].block, f.block.kind, f.block.text).value;
        WeaveSpeaks(t, kind, parts, events, k + 1, true);
      } else {
        WeaveSpeaks(s, kind, parts, events, k + 1, started);
      }
    }
  }

  lemma InsertSpeaks(s: Html, anchor: nat, kind: BlockKind, text: string)
    requires InsertBefore(s, anchor, kind, text).Some?
    ensures Spoken(InsertBefore(s, anchor, kind, text).value.blocks) == Spoken(s.blocks) + multiset(Said(text))
  {
    SpokenInserted(s.blocks, IndexOf(s.blocks, anchor).value, Block(s.made, kind, text));
  }

  lemma FragmentedShape(kind: CaptureKind, parts: seq<string>, events: seq<Inline>, k: nat, started: bool, serial: nat)
    requires k <= |events|
    ensures var f := Fragmented(kind, parts, events, k, started, serial); f.piece == k && f.block.serial == serial
  {
  }

  lemma AnchoredAt(bs: seq<Block>, events: seq<Inline>, k: nat)
    requires AllAnchored(bs, events) && k < |events|
    ensures Anchored(bs, events[k].block)
  {
  }

  lemma LastLays(s: Html, kind: CaptureKind, parts: seq<string>, events: seq<Inline>, started: bool, frs: seq<Fragment>)
    requires Books(s)
    requires frs == [] || frs == [Fragmented(kind, parts, events, |events|, started, s.made)]
    ensures LaidOut(s.blocks, frs, events) == s.blocks + (if frs == [] then [] else [frs[0].block])
    ensures frs != [] ==> Books(s.(blocks := s.blocks + [frs[0].block], made := s.made + 1))
  {
    AroundNothing(s.blocks, events);
    if frs != [] {
      var f := frs[0];
      FragmentedShape(kind, parts, events, |events|, started, s.made);
      PublishBooks(s, f.block.kind, f.block.text);
      assert f.block == Block(s.made, f.block.kind, f.block.text);
      OnlyBehind(s.blocks, f, events);
    }
    hide Fragmented, Around, Books;
  }

  lemma OnlyBehind(bs: seq<Block>, f: Fragment, events: seq<Inline>)
    requires Anchor(f, events).None?
    ensures LaidOut(bs, [f], events) == bs + [f.block]
  {
    AroundNothing(bs, events);
    AroundElsewhere(bs, f, [], events);
    assert [f] + [] == [f] && [f][1..] == [];
    assert BlocksAt([f], events, None) == [f.block] + BlocksAt([], events, None);
    assert bs + ([f.block] + []) == bs + [f.block];
  }

  lemma InsertLays(s: Html, events: seq<Inline>, i: nat, f: Fragment, more: seq<Fragment>)
    requires Books(s) && AllAnchored(s.blocks, events) && i < |s.blocks|
      && Anchor(f, events) == Some(s.blocks[i].serial)
    requires f.block.serial == s.made
    ensures LaidOut(s.blocks[..i] + [f.block] + s.blocks[i..], more, events) == LaidOut(s.blocks, [f] + more, events)
  {
    assert Anchor(f, events) != None && Unique(s.blocks);
    NewSerial(s, events);
    hide Around, BlocksAt, Anchor, Books, AllAnchored, Unique;
    AroundInserted(s.blocks, i, f, more, events);
    AtMore(f, more, events, None);
    assert [] + BlocksAt(more, events, None) == BlocksAt(more, events, None);
  }

  // ----- closing a capture that splits

  /** The paragraphs for list items published before a rich one. */
  function Bulleted(items: seq<string>, made: nat): (bs: seq<Block>)
    ensures |bs| <= |items|
  {
    if items == [] then []
    else if items[0] == "" then Bulleted(items[1..], made)
    else [Block(made, Paragraph, "\U{2022} " + items[0])] + Bulleted(items[1..], made + 1)
  }

  function ItemsSay(items: seq<string>): multiset<string> {
    if items == [] then multiset{} else multiset(Said(items[0])) + ItemsSay(items[1..])
  }

  /** t is s with the items' paragraphs together, directly before the anchor. */
  predicate FlushedAt(s: Html, t: Html, i: nat, anchor: nat, items: seq<string>) {
    && i < |s.blocks| && s.blocks[i].serial == anchor
    && t == s.(blocks := s.blocks[..i] + Bulleted(items, s.made) + s.blocks[i..],
               made := s.made + |Bulleted(items, s.made)|)
  }

  lemma NothingFlushed(s: Html, i: nat, anchor: nat)
    requires i < |s.blocks| && s.blocks[i].serial == anchor
    ensures FlushedAt(s, s, i, anchor, [])
  {
    assert s.blocks == s.blocks[..i] + [] + s.blocks[i..];
  }

  lemma OneFlushed(s: Html, t: Html, u: Html, i: nat, j: nat, anchor: nat, items: seq<string>)
    requires Books(t) && items != [] && items[0] != "" && i < |s.blocks| && s.blocks[i].serial == anchor
    requires var b := Block(s.made, Paragraph, "\U{2022} " + items[0]);
      t == s.(blocks := s.blocks[..i] + [b] + s.blocks[i..], made := s.made + 1)
    requires FlushedAt(t, u, j, anchor, items[1..])
    ensures FlushedAt(s, u, i, anchor, items)
  {
    SameIndex(t, j, i + 1);
    Shifted(s.blocks, i, Block(s.made, Paragraph, "\U{2022} " + items[0]), Bulleted(items[1..], s.made + 1));
  }

  lemma {:induction false} FlushedLays(s: Html, events: seq<Inline>, items: seq<string>) returns (i: nat)
    requires Books(s) && AllAnchored(s.blocks, events) && events != []
    ensures Flushed(s, events[0].block, items).Some?
    ensures var t := Flushed(s, events[0].block, items).value;
      FlushedAt(s, t, i, events[0].block, items) && Books(t) && AllAnchored(t.blocks, events)
    decreases |items|
  {
    hide AllAnchored, FlushedAt, Books;
    AnchoredAt(s.blocks, events, 0);
    if items == [] {
      i :| 0 <= i < |s.blocks| && s.blocks[i].serial == events[0].block;
      NothingFlushed(s, i, events[0].block);
    } else if items[0] == "" {
      i := FlushedLays(s, events, items[1..]);
      assert FlushedAt(s, Flushed(s, events[0].block, items).value, i, events[0].block, items) by {
        BlankFlushed(s, Flushed(s, events[0].block, items).value, i, events[0].block, items);
      }
    } else {
      var text := "\U{2022} " + items[0];
      AnchorFound(s, events[0].block, Paragraph, text);
      i := InsertBooks(s, events[0].block, Paragraph, text);
      InsertAnchors(s, events, i, Block(s.made, Paragraph, text));
      var t := InsertBefore(s, events[0].block, Paragraph, text).value;
      assert t == s.(blocks := s.blocks[..i] + [Block(s.made, Paragraph, text)] + s.blocks[i..], made := s.made + 1);
      hide InsertBefore, Anchored;
      var j := FlushedLays(t, events, items[1..]);
      OneFlushed(s, t, Flushed(t, events[0].block, items[1..]).value, i, j, events[0].block, items);
    }
  }

  lemma BlankFlushed(s: Html, t: Html, i: nat, anchor: nat, items: seq<string>)
    requires items != [] && items[0] == "" && FlushedAt(s, t, i, anchor, items[1..])
    ensures FlushedAt(s, t, i, anchor, items)
  {
  }

  lemma {:induction false} FlushedSpeaks(s: Html, anchor: nat, items: seq<string>)
    requires Flushed(s, anchor, items).Some?
    ensures Spoken(Flushed(s, anchor, items).value.blocks) == Spoken(s.blocks) + ItemsSay(items)
    decreases |items|
  {
    hide Said, Spoken, InsertBefore;
    BlankSays();
    if items != [] {
      if items[0] == "" {
        FlushedSpeaks(s, anchor, items[1..]);
      } else {
        InsertSpeaks(s, anchor, Paragraph, "\U{2022} " + items[0]);
        BulletWords(items[0]);
        FlushedSpeaks(InsertBefore(s, anchor, Paragraph, "\U{2022} " + items[0]).value, anchor, items[1..]);
      }
    }
  }

  lemma BlankSays()
    ensures Said("") == []
  {
  }

  lemma SameIndex(t: Html, i: nat, j: nat)
    requires Books(t) && i < |t.blocks| && j < |t.blocks| && t.blocks[i].serial == t.blocks[j].serial
    ensures i == j
  {
  }

  lemma Shifted(bs: seq<Block>, i: nat, b: Block, more: seq<Block>)
    requires i <= |bs|
    ensures var t := bs[..i] + [b] + bs[i..]; t[..i + 1] + more + t[i + 1..] == bs[..i] + ([b] + more) + bs[i..]
  {
    var t := bs[..i] + [b] + bs[i..];
    assert t[..i + 1] == bs[..i] + [b] && t[i + 1..] == bs[i..];
  }

  /** The blocks and list a splitting capture finds: its own list's earlier items are published first. */
  ghost predicate Prepared(s: Html, c: Capture, base: Html) {
    if c.kind == ItemText && InTopList(s, c) then
      var l := s.lists[|s.lists| - 1];
      && c.events != [] && base.lists == s.lists[|s.lists| - 1 := l.(items := [], unsupported := true)]
      && exists i: nat :: FlushedAt(s, base.(lists := s.lists), i, c.events[0].block, l.items)
    else base == s
  }

  /** The events of c can be woven into s. */
  predicate Weavable(s: Html, c: Capture) {
    Books(s) && Placed(c.events, |c.parts|, s.blocks) && InOrder(c.events, 0) && !s.failed
  }

  lemma Preparing(s: Html, c: Capture) returns (base: Html)
    requires Weavable(s, c) && c.kind == ItemText && InTopList(s, c) && c.events != []
    ensures Prepared(s, c, base) && Books(base) && AllAnchored(base.blocks, c.events) && !base.failed
    ensures FinishItem(s, c) == Woven(base, c)
    ensures Spoken(base.blocks) == Spoken(s.blocks) + ItemsSay(s.lists[|s.lists| - 1].items)
  {
    hide Spoken, Woven, Bulleted, Books, AllAnchored, Anchored, InOrder, FlushedAt, Flushed;
    var l := s.lists[|s.lists| - 1];
    assert AllAnchored(s.blocks, c.events) by {
      PlacedAnchors(c.events, |c.parts|, s.blocks);
    }
    hide Placed;
    var i := FlushedLays(s, c.events, l.items);
    FlushedSpeaks(s, c.events[0].block, l.items);
    var t := Flushed(s, c.events[0].block, l.items).value;
    FlushedCaptures(s, c.events[0].block, l.items);
    base := t.(lists := s.lists[|s.lists| - 1 := l.(items := [], unsupported := true)]);
    assert base.(lists := s.lists) == t;
    SameBooks(t, base);
  }

  lemma PlacedAnchors(events: seq<Inline>, parts: nat, bs: seq<Block>)
    requires Placed(events, parts, bs)
    ensures AllAnchored(bs, events)
  {
  }

  lemma SameBooks(s: Html, t: Html)
    requires Books(s) && t.blocks == s.blocks && t.made == s.made
    ensures Books(t)
  {
  }

  lemma WovenLays(s: Html, c: Capture) returns (frs: seq<Fragment>)
    requires Books(s) && AllAnchored(s.blocks, c.events) && Apart(|c.parts|, c.events)
    ensures var t := Woven(s, c);
      t == s.(blocks := LaidOut(s.blocks, frs, c.events), made := s.made + |frs|) && Books(t)
    ensures Tells(frs, c.kind, c.parts, c.events, s.made, 0, false) && SaidIn(frs) == SaidFrom(c.parts, c.events, 0)
    ensures Spoken(Woven(s, c).blocks) == Spoken(s.blocks) + multiset(SaidFrom(c.parts, c.events, 0))
  {
    assert c.events[0..] == c.events && From(c.events, 0) == 0;
    hide Weave, Tells, SaidFrom, LaidOut, Spoken, Apart, Books, AllAnchored;
    frs := WeaveLays(s, c.kind, c.parts, c.events, 0, false);
    WeaveSpeaks(s, c.kind, c.parts, c.events, 0, false);
    WeaveCaptures(s, c.kind, c.parts, c.events, 0, false);
  }

  lemma SplitCloses(s: Html, c: Capture, pgn: string -> Option<nat>)
    requires Weaves(c, pgn)
    ensures c.events != []
    ensures FinishCapture(s, c, pgn) == if c.kind == ItemText then FinishItem(s, c) else Woven(s, c)
    ensures c.kind == ItemText && !InTopList(s, c) ==> FinishItem(s, c) == Woven(s, c)
  {
    hide Compact, Joined, Woven, Flushed;
    SplitsSome(c.events);
  }

  lemma WeavableApart(s: Html, c: Capture)
    requires Weavable(s, c)
    ensures Apart(|c.parts|, c.events) && AllAnchored(s.blocks, c.events)
  {
    InOrderApart(c.events, |c.parts|, s.blocks);
    PlacedAnchors(c.events, |c.parts|, s.blocks);
  }

  /** Closing a capture that splits publishes exactly the text outside its events: each piece that is not blank
      becomes one block, directly before the block of the event it precedes, and the last piece stands behind all. */
  lemma SplitCaptureTells(s: Html, c: Capture, pgn: string -> Option<nat>) returns (base: Html, frs: seq<Fragment>)
    requires Weavable(s, c) && Weaves(c, pgn)
    ensures Prepared(s, c, base)
    ensures Tells(frs, c.kind, c.parts, c.events, base.made, 0, false)
    ensures FinishCapture(s, c, pgn) == base.(blocks := LaidOut(base.blocks, frs, c.events), made := base.made + |frs|)
    ensures SaidIn(frs) == SaidFrom(c.parts, c.events, 0)
    ensures Books(FinishCapture(s, c, pgn))
    ensures Total(FinishCapture(s, c, pgn)) == Total(s) + multiset(SaidFrom(c.parts, c.events, 0))
  {
    WeavableApart(s, c);
    base := PreparingAny(s, c, pgn);
    hide *;
    frs := WovenLays(base, c);
    TotalWoven(base, FinishCapture(s, c, pgn));
  }

  lemma TotalWoven(s: Html, t: Html)
    requires t.lists == s.lists
    ensures Total(t) + Spoken(s.blocks) == Total(s) + Spoken(t.blocks)
  {
  }

  lemma PreparingAny(s: Html, c: Capture, pgn: string -> Option<nat>) returns (base: Html)
    requires Weavable(s, c) && Weaves(c, pgn)
    ensures Prepared(s, c, base) && Books(base) && AllAnchored(base.blocks, c.events)
    ensures FinishCapture(s, c, pgn) == Woven(base, c) && Total(base) == Total(s)
  {
    hide FinishCapture, FinishItem, Woven, Weaves, Anchored, Spoken, ItemsSay, InOrder;
    SplitCloses(s, c, pgn);
    WeavableApart(s, c);
    base := s;
    if c.kind == ItemText && InTopList(s, c) {
      base := Preparing(s, c);
      hide Prepared, ListsSay, AllAnchored, Books;
      TopPrepared(s, c, base);
    }
  }

  lemma TopPrepared(s: Html, c: Capture, base: Html)
    requires Prepared(s, c, base) && c.kind == ItemText && InTopList(s, c)
    requires Spoken(base.blocks) == Spoken(s.blocks) + ItemsSay(s.lists[|s.lists| - 1].items)
    ensures Total(base) == Total(s)
  {
    TopEmptied(s.lists);
    hide Spoken, ItemsSay, ListsSay;
  }

  /** All words published, or waiting in open lists. */
  function Total(s: Html): multiset<string> {
    Spoken(s.blocks) + ListsSay(s.lists)
  }

  /** The words of the items collected in open lists. */
  function ListsSay(lists: seq<Listing>): multiset<string> {
    if lists == [] then multiset{} else ListsSay(lists[..|lists| - 1]) + ItemsSay(lists[|lists| - 1].items)
  }

  lemma TopChanged(lists: seq<Listing>, l: Listing)
    requires lists != []
    ensures ListsSay(lists[|lists| - 1 := l]) + ItemsSay(lists[|lists| - 1].items) ==
        ListsSay(lists) + ItemsSay(l.items)
  {
    assert lists[|lists| - 1 := l][..|lists| - 1] == lists[..|lists| - 1];
  }

  lemma TopEmptied(lists: seq<Listing>)
    requires lists != []
    ensures var l := lists[|lists| - 1];
      ListsSay(lists[|lists| - 1 := l.(items := [], unsupported := true)]) + ItemsSay(l.items) == ListsSay(lists)
  {
    TopChanged(lists, lists[|lists| - 1].(items := [], unsupported := true));
    assert ItemsSay([]) == multiset{};
  }

  // ----- closing any capture

  /** What a capture must publish when it closes: a title nothing, a marked `pre` only its slots, one that splits the
      text outside its events, any other all its text. */
  function Due(c: Capture, pgn: string -> Option<nat>): multiset<string> {
    if c.kind == TitleText || (c.kind == PreText && pgn(Joined(c.parts)).Some?) then multiset{}
    else if Splits(c.events) then multiset(SaidFrom(c.parts, c.events, 0))
    else multiset(Said(Joined(c.parts)))
  }

  /** A capture that does not split and has text: its one block, or its place among the items of its list. */
  lemma PlainCaptureTells(s: Html, c: Capture, pgn: string -> Option<nat>)
    requires Owns(c) && Words(Joined(c.parts)) != [] && !Splits(c.events)
    requires c.kind == PreText ==> pgn(Joined(c.parts)).None?
    ensures var t, text := FinishCapture(s, c, pgn), Compact(Joined(c.parts));
      if c.kind == ItemText && InTopList(s, c) then
        && t.blocks == s.blocks && t.lists[..|t.lists| - 1] == s.lists[..|s.lists| - 1]
        && t.lists[|t.lists| - 1].items == s.lists[|s.lists| - 1].items + [text]
      else
        && t.lists == s.lists
        && t.blocks == s.blocks + [Block(s.made, if c.kind == HeadingText then HeadingBlock else Paragraph,
                                         if c.kind == ItemText then "\U{2022} " + text else text)]
  {
    CompactWords(Joined(c.parts));
    hide Compact, Joined, Words, Woven, Splits;
  }

  predicate AllSpace(x: string) {
    forall c :: c in x ==> IsSpace(c)
  }

  lemma {:induction false} NoWordsExactly(x: string)
    ensures Words(x) == [] <==> AllSpace(x)
    decreases |x|
  {
    if x != [] {
      assert x[0] in x;
      if IsSpace(x[0]) {
        NoWordsExactly(x[1..]);
        assert x == [x[0]] + x[1..];
      }
    }
  }

  lemma {:induction false} JoinedMember(parts: seq<string>, c: char)
    ensures c in Joined(parts) <==> exists i :: 0 <= i < |parts| && c in parts[i]
  {
    if parts != [] {
      JoinedMember(parts[..|parts| - 1], c);
    }
  }

  lemma BlankPiece(parts: seq<string>, events: seq<Inline>, k: nat)
    requires k <= |events| && AllSpace(Joined(parts))
    ensures AllSpace(Piece(parts, events, k))
  {
    hide IsSpace, Joined;
    var from, upto := From(events, k), if k < |events| then events[k].part else |parts|;
    if from <= upto <= |parts| {
      var slice := parts[from..upto];
      forall c | c in Joined(slice)
        ensures c in Joined(parts)
      {
        JoinedMember(slice, c);
        JoinedMember(parts, c);
        var i :| 0 <= i < |slice| && c in slice[i];
        assert slice[i] == parts[from + i];
      }
    }
  }

  lemma {:induction false} BlankPieces(parts: seq<string>, events: seq<Inline>, k: nat)
    requires k <= |events| && Words(Joined(parts)) == []
    ensures SaidFrom(parts, events, k) == []
    decreases |events| - k
  {
    hide Words, Joined, Piece, AllSpace;
    NoWordsExactly(Joined(parts));
    BlankPiece(parts, events, k);
    NoWordsExactly(Piece(parts, events, k));
    if k < |events| {
      BlankPieces(parts, events, k + 1);
    }
  }

  lemma {:induction false} SlotsSay(s: Html, n: nat)
    requires Books(s)
    ensures Books(Slots(s, n)) && Spoken(Slots(s, n).blocks) == Spoken(s.blocks)
    decreases n
  {
    if n > 0 {
      PublishBooks(s, PgnSlot, "");
      SpokenAppended(s.blocks, Block(s.made, PgnSlot, ""));
      hide Books, Spoken;
      SlotsSay(Publish(s, PgnSlot, ""), n - 1);
    }
  }

  lemma {:induction false} ItemsSnoc(items: seq<string>, x: string)
    ensures ItemsSay(items + [x]) == ItemsSay(items) + multiset(Said(x))
  {
    hide Said;
    if items == [] {
      assert [x][1..] == [] && [] + [x] == [x];
    } else {
      assert (items + [x])[1..] == items[1..] + [x];
      ItemsSnoc(items[1..], x);
    }
  }

  lemma ItemJoins(lists: seq<Listing>, text: string)
    requires lists != []
    ensures var l := lists[|lists| - 1];
      ListsSay(lists[|lists| - 1 := l.(items := l.items + [text])]) == ListsSay(lists) + multiset(Said(text))
  {
    var l := lists[|lists| - 1];
    TopChanged(lists, l.(items := l.items + [text]));
    ItemsSnoc(l.items, text);
    hide ListsSay, ItemsSay, Said;
  }

  /** t has the books of s and `more` words. */
  predicate Adds(s: Html, t: Html, more: multiset<string>) {
    Books(t) && Total(t) == Total(s) + more
  }

  lemma PublishAdds(s: Html, kind: BlockKind, text: string)
    requires Books(s)
    ensures Adds(s, Publish(s, kind, text), multiset(Said(text)))
  {
    PublishBooks(s, kind, text);
    SpokenAppended(s.blocks, Block(s.made, kind, text));
    hide Spoken, ListsSay, Said, Books;
  }

  lemma PlainCaptureAdds(s: Html, c: Capture, pgn: string -> Option<nat>)
    requires Books(s) && Owns(c) && Words(Joined(c.parts)) != [] && !Splits(c.events)
    requires c.kind == PreText ==> pgn(Joined(c.parts)).None?
    ensures Adds(s, FinishCapture(s, c, pgn), Due(c, pgn))
  {
    hide Joined, Words, Splits, Said, Adds, Books;
    var text := Compact(Joined(c.parts));
    CompactWords(Joined(c.parts));
    assert Due(c, pgn) == multiset(Said(text));
    hide Compact, Woven, Due, FinishItem;
    if c.kind == ItemText && InTopList(s, c) {
      ItemJoins(s.lists, text);
      ItemAdds(s, s.lists[|s.lists| - 1].items + [text], multiset(Said(text)));
    } else if c.kind == ItemText {
      BulletWords(text);
      PublishAdds(s, Paragraph, "\U{2022} " + text);
    } else {
      PublishAdds(s, if c.kind == HeadingText then HeadingBlock else Paragraph, text);
    }
  }

  lemma ItemAdds(s: Html, items: seq<string>, more: multiset<string>)
    requires Books(s) && s.lists != []
    requires ListsSay(s.lists[|s.lists| - 1 := s.lists[|s.lists| - 1].(items := items)]) == ListsSay(s.lists) + more
    ensures Adds(s, WithTopList(s, s.lists[|s.lists| - 1].(items := items)), more)
  {
    hide Spoken, ListsSay;
  }

  lemma UnchangedAdds(s: Html)
    requires Books(s)
    ensures Adds(s, s, multiset{})
  {
  }

  lemma SlotsAdd(s: Html, n: nat)
    requires Books(s)
    ensures Adds(s, Slots(s, n), multiset{})
  {
    SlotsSay(s, n);
    SlotsCaptures(s, n);
    hide Slots, Spoken, ListsSay, Books;
  }

  lemma SplitCaptureAdds(s: Html, c: Capture, pgn: string -> Option<nat>)
    requires Weavable(s, c) && Weaves(c, pgn)
    ensures Adds(s, FinishCapture(s, c, pgn), Due(c, pgn))
  {
    var base, frs := SplitCaptureTells(s, c, pgn);
    DueSplit(c, pgn);
    hide *;
    TellAdds(s, FinishCapture(s, c, pgn), Due(c, pgn));
  }

  lemma DueSplit(c: Capture, pgn: string -> Option<nat>)
    requires Weaves(c, pgn)
    ensures Due(c, pgn) == multiset(SaidFrom(c.parts, c.events, 0))
  {
  }

  lemma TellAdds(s: Html, t: Html, more: multiset<string>)
    requires Books(t) && Total(t) == Total(s) + more
    ensures Adds(s, t, more)
  {
  }

  lemma BlankCaptureAdds(s: Html, c: Capture, pgn: string -> Option<nat>)
    requires Books(s) && Words(Joined(c.parts)) == [] && !Weaves(c, pgn)
    ensures Adds(s, FinishCapture(s, c, pgn), Due(c, pgn))
  {
    CompactWords(Joined(c.parts));
    BlankPieces(c.parts, c.events, 0);
    UnchangedAdds(s);
    hide Joined, Splits, SaidFrom, Books, Total, Woven;
  }

  lemma MarkedCaptureAdds(s: Html, c: Capture, pgn: string -> Option<nat>)
    requires Books(s) && Words(Joined(c.parts)) != [] && c.kind == PreText && pgn(Joined(c.parts)).Some?
    ensures Adds(s, FinishCapture(s, c, pgn), Due(c, pgn))
  {
    CompactWords(Joined(c.parts));
    SlotsAdd(s, pgn(Joined(c.parts)).value);
    hide Joined, Splits, SaidFrom, Books, Total, Woven;
  }

  /** No word is lost or made when a capture closes: what was published or waiting, and what the capture owes. */
  lemma CaptureConserves(s: Html, c: Capture, pgn: string -> Option<nat>)
    requires Books(s) && Placed(c.events, |c.parts|, s.blocks) && !s.failed && !FinishCapture(s, c, pgn).failed
    ensures Adds(s, FinishCapture(s, c, pgn), Due(c, pgn))
  {
    FinishExactly(s, c, pgn);
    hide FinishCapture, Due, Adds, Joined, Compact, Words, Books, Placed, InOrder, Grown, Splits;
    if c.kind == TitleText {
      assert FinishCapture(s, c, pgn) == s && Due(c, pgn) == multiset{} by {
        TitleSilent(s, c, pgn);
      }
      UnchangedAdds(s);
    } else if Weaves(c, pgn) {
      SplitCaptureAdds(s, c, pgn);
    } else if Words(Joined(c.parts)) == [] {
      BlankCaptureAdds(s, c, pgn);
    } else if c.kind == PreText && pgn(Joined(c.parts)).Some? {
      MarkedCaptureAdds(s, c, pgn);
    } else {
      CompactWords(Joined(c.parts));
      PlainCaptureAdds(s, c, pgn);
    }
  }

  lemma TitleSilent(s: Html, c: Capture, pgn: string -> Option<nat>)
    requires c.kind == TitleText
    ensures FinishCapture(s, c, pgn) == s && Due(c, pgn) == multiset{}
  {
  }

  // ----- lists give their items to the book

  lemma WithCharAfter(first: seq<string>, ws: seq<string>, gap: bool, c: char)
    requires ws == [] ==> gap
    ensures WithChar(first + ws, gap, c) == first + WithChar(ws, gap, c)
  {
    var all := first + ws;
    if ws != [] {
      assert all[|all| - 1] == ws[|ws| - 1] && all[..|all| - 1] == first + ws[..|ws| - 1];
    }
  }

  /** Words do not cross a blank. */
  lemma {:induction false} WordsAcross(a: string, c: char, b: string)
    requires IsSpace(c)
    ensures Words(a + [c] + b) == Words(a) + Words(b)
    decreases |b|
  {
    hide Words, WithChar, IsSpace;
    if b == "" {
      assert a + [c] + b == a + [c];
      BlankAfter(a, c);
    } else {
      var n := |b| - 1;
      var head := a + [c] + b[..n];
      WordsAcross(a, c, b[..n]);
      assert a + [c] + b == head + [b[n]] && b == b[..n] + [b[n]];
      WordsSnoc(head, b[n]);
      WordsSnoc(b[..n], b[n]);
      GapAcross(a, c, b[..n]);
      if Words(b[..n]) == [] {
        NoWords(b[..n]);
      }
      WithCharAfter(Words(a), Words(b[..n]), Gap(head), b[n]);
    }
  }

  lemma BlankAfter(a: string, c: char)
    requires IsSpace(c)
    ensures Words(a + [c]) == Words(a) && Words("") == []
  {
    WordsSnoc(a, c);
  }

  lemma GapAcross(a: string, c: char, b: string)
    requires IsSpace(c)
    ensures Gap(a + [c] + b) == Gap(b)
  {
    var t := a + [c] + b;
    assert t[|t| - 1] == if b == "" then c else b[|b| - 1];
  }

  lemma {:induction false} JoinedItemsSay(items: seq<string>)
    requires items != []
    ensures multiset(Said(JoinWith(items, '\n'))) == ItemsSay(items)
  {
    if |items| == 1 {
      assert items[1..] == [];
    } else {
      var rest := JoinWith(items[1..], '\n');
      JoinedItemsSay(items[1..]);
      WordsAcross(items[0], '\n', rest);
      PlainConcat(Words(items[0]), Words(rest));
      hide Words, Plain;
    }
  }

  lemma {:induction false} EmptyItemsSay(items: seq<string>)
    requires AllEmpty(items)
    ensures ItemsSay(items) == multiset{}
  {
    if items != [] {
      BlankSays();
      EmptyItemsSay(items[1..]);
    }
  }

  lemma {:induction false} PublishedItemsAdd(s: Html, items: seq<string>)
    requires Books(s)
    ensures Adds(s, PublishItems(s, items), ItemsSay(items))
    decreases |items|
  {
    hide Said, Total, Books;
    if items == [] {
      UnchangedAdds(s);
    } else if items[0] == "" {
      BlankSays();
      PublishedItemsAdd(s, items[1..]);
    } else {
      PublishAdds(s, Paragraph, "\U{2022} " + items[0]);
      BulletWords(items[0]);
      PublishedItemsAdd(Publish(s, Paragraph, "\U{2022} " + items[0]), items[1..]);
    }
  }

  lemma ListAdds(s: Html, l: Listing)
    requires Books(s)
    ensures Adds(s, EmitList(s, l), ItemsSay(l.items))
  {
    hide Said, Total, Books, ItemsSay;
    UnchangedAdds(s);
    PublishedItemsAdd(s, l.items);
    if AllEmpty(l.items) {
      EmptyItemsSay(l.items);
    } else {
      JoinedItemsSay(l.items);
      PublishAdds(s, ListBlock, JoinWith(l.items, '\n'));
    }
  }

  lemma {:induction false} ListsAdd(s: Html)
    requires Books(s)
    ensures Adds(s, EmitLists(s), multiset{}) && EmitLists(s).lists == []
    decreases |s.lists|
  {
    hide EmitList, ItemsSay, Spoken;
    if s.lists != [] {
      var n := |s.lists| - 1;
      var t := s.(lists := s.lists[..n]);
      SameBooks(s, t);
      ListAdds(t, s.lists[n].(unsupported := true));
      hide Books;
      ListsAdd(EmitList(t, s.lists[n].(unsupported := true)));
    }
  }

  // ----- what each event closes, shows and drops

  function DueDown(s: Html, n: nat, pgn: string -> Option<nat>): multiset<string>
    requires n <= |s.captures|
    decreases |s.captures|
  {
    if s.failed || |s.captures| == n then multiset{}
    else
      FinishTopTouches(s, pgn);
      Due(s.captures[|s.captures| - 1], pgn) + DueDown(FinishTop(s, pgn), n, pgn)
  }

  /** The text of the block that rich content shows, "" when there is none. */
  function ShownText(s: Html, tag: Tag, attrs: Attrs): string {
    if attrs.position.Some? && (tag == Image || s.head == 0) then attrs.position.value
    else if tag == Image then attrs.alt
    else ""
  }

  /** The words an element owes when it starts: of the captures its start closes, and of what it shows. */
  function DueAtStart(s: Html, tag: Tag, attrs: Attrs, pgn: string -> Option<nat>): multiset<string> {
    if tag.Suppressed? || s.suppressed != [] || s.hidden != [] || tag == Head then multiset{} else
    var leaves := s.head > 0 && tag == Body;
    var t := if leaves then FinishDown(s, FirstTitle(s.captures), pgn).(head := 0) else s;
    var closed := if leaves then DueDown(s, FirstTitle(s.captures), pgn) else multiset{};
    if t.failed || attrs.hidden || (t.head > 0 && !IsTitle(tag) && tag != Meta) then closed
    else closed + multiset(Said(ShownText(t, tag, attrs)))
  }

  predicate EndsList(s: Html, tag: Tag) {
    tag.Listed? && s.lists != [] && s.lists[|s.lists| - 1].ordered == tag.ordered
  }

  predicate Unheard(s: Html, tag: Tag) {
    tag.Suppressed? || s.suppressed != [] || s.hidden != []
      || (tag != Head && s.head > 0 && !IsTitle(tag) && tag != Meta)
  }

  /** The words of the captures an element closes when it ends. */
  function DueAtEnd(s: Html, tag: Tag, pgn: string -> Option<nat>): multiset<string> {
    if Unheard(s, tag) then multiset{}
    else if tag == Head then DueDown(s, FirstTitle(s.captures), pgn)
    else
      var n := TopTagged(s.captures, tag);
      var t := FinishDown(s, n, pgn);
      DueDown(s, n, pgn)
      + if t.failed || !EndsList(t, tag) then multiset{} else DueDown(t, TopItem(t.captures, |t.lists|), pgn)
  }

  /** The items of a nested list are dropped when it ends, because the item around it has read their text too. */
  function DroppedAtEnd(s: Html, tag: Tag, pgn: string -> Option<nat>): multiset<string> {
    if Unheard(s, tag) || tag == Head then multiset{} else
    var t := FinishDown(s, TopTagged(s.captures, tag), pgn);
    if t.failed || !EndsList(t, tag) then multiset{} else
    var u := FinishDown(t, TopItem(t.captures, |t.lists|), pgn);
    if u.failed || !u.lists[|u.lists| - 1].nested then multiset{} else ItemsSay(u.lists[|u.lists| - 1].items)
  }

  function DueAt(s: Html, token: Token, pgn: string -> Option<nat>): multiset<string> {
    match token
    case Start(tag, attrs) => DueAtStart(s, tag, attrs, pgn)
    case End(tag) => DueAtEnd(s, tag, pgn)
    case Data(_) => multiset{}
  }

  function DroppedAt(s: Html, token: Token, pgn: string -> Option<nat>): multiset<string> {
    if token.End? then DroppedAtEnd(s, token.tag, pgn) else multiset{}
  }

  lemma TopConserves(s: Html, pgn: string -> Option<nat>)
    requires Steady(s) && Books(s) && !s.failed && s.captures != [] && !FinishTop(s, pgn).failed
    ensures Adds(s, FinishTop(s, pgn), Due(s.captures[|s.captures| - 1], pgn))
  {
    var n := |s.captures| - 1;
    var p := s.(captures := s.captures[..n]);
    assert Kept(s, n);
    SameBooks(s, p);
    CaptureConserves(p, s.captures[n], pgn);
    hide Due, FinishCapture, Kept, Steady, Spoken, ListsSay, Books;
    SameBooks(FinishCapture(p, s.captures[n], pgn), FinishTop(s, pgn));
  }

  lemma AddsTwice(s: Html, t: Html, u: Html, a: multiset<string>, b: multiset<string>)
    requires Adds(s, t, a) && Adds(t, u, b)
    ensures Adds(s, u, a + b)
  {
  }

  lemma AddsBooks(s: Html, t: Html, a: multiset<string>)
    requires Adds(s, t, a)
    ensures Books(t)
  {
  }

  lemma {:induction false} DownConserves(s: Html, n: nat, pgn: string -> Option<nat>)
    requires Steady(s) && Books(s) && n <= |s.captures| && !FinishDown(s, n, pgn).failed
    ensures Adds(s, FinishDown(s, n, pgn), DueDown(s, n, pgn))
    decreases |s.captures|
  {
    hide Steady, Due, Total, Grown, Books, Adds, FinishTop;
    if |s.captures| == n || s.failed {
      UnchangedAdds(s);
    } else {
      FinishTopTouches(s, pgn);
      FinishTopKeeps(s, pgn);
      var t := FinishTop(s, pgn);
      if !t.failed {
        TopConserves(s, pgn);
        AddsBooks(s, t, Due(s.captures[|s.captures| - 1], pgn));
        DownConserves(t, n, pgn);
        AddsTwice(s, t, FinishDown(t, n, pgn), Due(s.captures[|s.captures| - 1], pgn), DueDown(t, n, pgn));
      }
    }
  }

  // ----- one event

  lemma SameTextAdds(s: Html, t: Html)
    requires Books(s) && t.blocks == s.blocks && t.made == s.made && t.lists == s.lists
    ensures Adds(s, t, multiset{})
  {
  }

  lemma RichAdds(s: Html, tag: Tag, attrs: Attrs)
    requires Books(s)
    ensures Adds(s, Rich(s, tag, attrs), multiset(Said(ShownText(s, tag, attrs))))
    ensures Rich(s, tag, attrs).lists == s.lists
  {
    UnchangedAdds(s);
    BlankSays();
    var kind := if attrs.position.Some? && (tag == Image || s.head == 0) then Chess else Note;
    PublishAdds(s, kind, ShownText(s, tag, attrs));
    hide Books, Total, Said;
    SameShown(s, kind, ShownText(s, tag, attrs));
    SameTotals(s, Publish(s, kind, ShownText(s, tag, attrs)), Shown(s, kind, ShownText(s, tag, attrs)),
               multiset(Said(ShownText(s, tag, attrs))));
  }

  lemma SameShown(s: Html, kind: BlockKind, text: string)
    ensures var t, u := Publish(s, kind, text), Shown(s, kind, text);
      u.blocks == t.blocks && u.made == t.made && u.lists == t.lists
  {
  }

  lemma SameTotals(s: Html, t: Html, u: Html, more: multiset<string>)
    requires Adds(s, t, more) && u.blocks == t.blocks && u.made == t.made && u.lists == t.lists
    ensures Adds(s, u, more)
  {
  }

  lemma NewListSays(lists: seq<Listing>, l: Listing)
    requires l.items == []
    ensures ListsSay(lists + [l]) == ListsSay(lists)
  {
    assert (lists + [l])[..|lists|] == lists;
    assert ItemsSay([]) == multiset{};
  }

  lemma FlaggedSays(lists: seq<Listing>)
    requires lists != []
    ensures ListsSay(lists[|lists| - 1 := lists[|lists| - 1].(unsupported := true)]) == ListsSay(lists)
  {
    TopChanged(lists, lists[|lists| - 1].(unsupported := true));
  }

  lemma SameListsSay(s: Html, t: Html)
    requires Books(s) && t.blocks == s.blocks && t.made == s.made && ListsSay(t.lists) == ListsSay(s.lists)
    ensures Adds(s, t, multiset{})
  {
  }

  lemma OpenListAdds(s: Html, ordered: bool, attrs: Attrs)
    requires Books(s)
    ensures Adds(s, OpenList(s, ordered, attrs), multiset{})
  {
    var nested := s.lists != [];
    if nested {
      FlaggedSays(s.lists);
    }
    hide ListsSay, ItemsSay, Books;
    var t := OpenList(s, ordered, attrs);
    NewListSays(t.lists[..|t.lists| - 1], t.lists[|t.lists| - 1]);
    assert t.lists == t.lists[..|t.lists| - 1] + [t.lists[|t.lists| - 1]];
    SameListsSay(s, t);
  }

  lemma OpenCaptureAdds(s: Html, tag: Tag, attrs: Attrs)
    requires Books(s) && tag.Captured?
    ensures Adds(s, OpenCapture(s, tag, attrs), multiset{})
  {
    if s.lists != [] {
      FlaggedSays(s.lists);
    }
    hide ListsSay, Books;
    SameListsSay(s, OpenCapture(s, tag, attrs));
  }

  lemma OpenedAdds(s: Html, tag: Tag, attrs: Attrs)
    requires Books(s)
    ensures Adds(s, Opened(s, tag, attrs), multiset(Said(ShownText(s, tag, attrs))))
  {
    hide Books, Said, Adds, Rich, OpenList, OpenCapture;
    var bounded := if IsBlock(tag) then Boundary(s) else s;
    SameTextAdds(s, bounded);
    AddsBooks(s, bounded, multiset{});
    RichAdds(bounded, tag, attrs);
    var said := multiset(Said(ShownText(s, tag, attrs)));
    var rich := Rich(bounded, tag, attrs);
    AddsTwice(s, bounded, rich, multiset{}, said);
    assert multiset{} + said == said && said + multiset{} == said;
    AddsBooks(s, rich, said);
    match tag
    case Listed(ordered) =>
      OpenListAdds(rich, ordered, attrs);
      AddsTwice(s, rich, OpenList(rich, ordered, attrs), said, multiset{});
    case Captured(_, _) =>
      OpenCaptureAdds(rich, tag, attrs);
      AddsTwice(s, rich, OpenCapture(rich, tag, attrs), said, multiset{});
    case _ =>
  }

  lemma LeavingAdds(s: Html, pgn: string -> Option<nat>)
    requires Steady(s) && Books(s) && !FinishDown(s, FirstTitle(s.captures), pgn).failed
    ensures var t := FinishDown(s, FirstTitle(s.captures), pgn).(head := 0);
      Adds(s, t, DueDown(s, FirstTitle(s.captures), pgn))
  {
    var f := FinishDown(s, FirstTitle(s.captures), pgn);
    DownConserves(s, FirstTitle(s.captures), pgn);
    hide FinishDown, DueDown;
    SameTotals(s, f, f.(head := 0), DueDown(s, FirstTitle(s.captures), pgn));
  }

  lemma StartConserves(s: Html, tag: Tag, attrs: Attrs, pgn: string -> Option<nat>)
    requires Steady(s) && Books(s) && !OnStart(s, tag, attrs, pgn).failed
    ensures Adds(s, OnStart(s, tag, attrs, pgn), DueAtStart(s, tag, attrs, pgn))
  {
    hide Steady, Books, Adds, FinishDown, DueDown, Opened, Said, FirstTitle, ShownText;
    if tag.Suppressed? || s.suppressed != [] || s.hidden != [] || tag == Head {
      SameTextAdds(s, OnStart(s, tag, attrs, pgn));
    } else if s.head > 0 && tag == Body {
      var n := FirstTitle(s.captures);
      var t := FinishDown(s, n, pgn).(head := 0);
      LeavingAdds(s, pgn);
      AddsBooks(s, t, DueDown(s, n, pgn));
      ElementAdds(t, tag, attrs);
      var said := multiset(Said(ShownText(t, tag, attrs)));
      if attrs.hidden {
        AddsTwice(s, t, t.(hidden := t.hidden + [tag]), DueDown(s, n, pgn), multiset{});
        assert DueDown(s, n, pgn) + multiset{} == DueDown(s, n, pgn);
      } else {
        AddsTwice(s, t, Opened(t, tag, attrs), DueDown(s, n, pgn), said);
      }
    } else {
      ElementAdds(s, tag, attrs);
      UnchangedAdds(s);
      var said := multiset(Said(ShownText(s, tag, attrs)));
      assert multiset{} + said == said;
    }
  }

  lemma ElementAdds(s: Html, tag: Tag, attrs: Attrs)
    requires Books(s)
    ensures Adds(s, s.(hidden := s.hidden + [tag]), multiset{})
    ensures Adds(s, Opened(s, tag, attrs), multiset(Said(ShownText(s, tag, attrs))))
  {
    SameTextAdds(s, s.(hidden := s.hidden + [tag]));
    OpenedAdds(s, tag, attrs);
  }

  // ----- the end of an element

  /** t has the books of s, `more` words, and lacks those dropped. */
  predicate Settles(s: Html, t: Html, more: multiset<string>, dropped: multiset<string>) {
    Books(t) && Total(t) + dropped == Total(s) + more
  }

  lemma AddsSettles(s: Html, t: Html, more: multiset<string>)
    requires Adds(s, t, more)
    ensures Settles(s, t, more, multiset{})
  {
  }

  lemma PoppedSays(lists: seq<Listing>)
    requires lists != []
    ensures ListsSay(lists[..|lists| - 1]) + ItemsSay(lists[|lists| - 1].items) == ListsSay(lists)
  {
  }

  lemma PoppedSettles(s: Html)
    requires Books(s) && s.lists != []
    ensures var l := s.lists[|s.lists| - 1]; var u := s.(lists := s.lists[..|s.lists| - 1]);
      Settles(s, if l.nested then SpaceAt(u, |u.lists|) else EmitList(u, l), multiset{},
              if l.nested then ItemsSay(l.items) else multiset{})
  {
    PoppedSays(s.lists);
    var l := s.lists[|s.lists| - 1];
    var u := s.(lists := s.lists[..|s.lists| - 1]);
    SameBooks(s, u);
    ListAdds(u, l);
    hide Spoken, ListsSay, ItemsSay, EmitList, Books;
    SameBooks(u, SpaceAt(u, |u.lists|));
  }

  lemma CloseListSettles(s: Html, pgn: string -> Option<nat>)
    requires Steady(s) && Books(s) && s.lists != [] && !CloseList(s, pgn).failed
    ensures var n := TopItem(s.captures, |s.lists|); var u := FinishDown(s, n, pgn);
      && !u.failed && u.lists != []
      && Settles(s, CloseList(s, pgn), DueDown(s, n, pgn),
                 if u.lists[|u.lists| - 1].nested then ItemsSay(u.lists[|u.lists| - 1].items) else multiset{})
  {
    hide Steady, Books, Adds, Settles, FinishDown, DueDown, EmitList, ItemsSay;
    var n := TopItem(s.captures, |s.lists|);
    var u := FinishDown(s, n, pgn);
    assert !u.failed;
    DownConserves(s, n, pgn);
    AddsBooks(s, u, DueDown(s, n, pgn));
    PoppedSettles(u);
    var l := u.lists[|u.lists| - 1];
    SettlesAfter(s, u, CloseList(s, pgn), DueDown(s, n, pgn), multiset{},
                 if l.nested then ItemsSay(l.items) else multiset{});
    assert DueDown(s, n, pgn) + multiset{} == DueDown(s, n, pgn);
  }

  lemma SettlesAfter(s: Html, t: Html, u: Html, a: multiset<string>, b: multiset<string>, dropped: multiset<string>)
    requires Adds(s, t, a) && Settles(t, u, b, dropped)
    ensures Settles(s, u, a + b, dropped)
  {
  }

  lemma BoundarySettles(s: Html, t: Html, a: multiset<string>, dropped: multiset<string>)
    requires Settles(s, t, a, dropped)
    ensures Settles(s, Boundary(t), a, dropped)
  {
  }

  lemma BodyEndSettles(s: Html, tag: Tag, pgn: string -> Option<nat>)
    requires Steady(s) && Books(s) && !Unheard(s, tag) && tag != Head && !BodyEnd(s, tag, pgn).failed
    ensures Settles(s, BodyEnd(s, tag, pgn), DueAtEnd(s, tag, pgn), DroppedAtEnd(s, tag, pgn))
  {
    hide Steady, Books, Adds, Settles, FinishDown, DueDown, CloseList, ItemsSay, Boundary, Grown;
    var n := TopTagged(s.captures, tag);
    var t := FinishDown(s, n, pgn);
    assert !t.failed;
    DownConserves(s, n, pgn);
    AddsBooks(s, t, DueDown(s, n, pgn));
    FinishDownKeeps(s, n, pgn);
    if EndsList(t, tag) {
      var u := CloseList(t, pgn);
      assert !u.failed;
      CloseListSettles(t, pgn);
      SettlesAfter(s, t, u, DueDown(s, n, pgn), DueDown(t, TopItem(t.captures, |t.lists|), pgn),
                   DroppedAtEnd(s, tag, pgn));
      BoundarySettles(s, u, DueAtEnd(s, tag, pgn), DroppedAtEnd(s, tag, pgn));
    } else {
      AddsSettles(s, t, DueDown(s, n, pgn));
      assert DueDown(s, n, pgn) + multiset{} == DueDown(s, n, pgn);
      BoundarySettles(s, t, DueAtEnd(s, tag, pgn), DroppedAtEnd(s, tag, pgn));
    }
  }

  lemma HeadEndSettles(s: Html, pgn: string -> Option<nat>)
    requires Steady(s) && Books(s) && !HeadEnd(s, pgn).failed
    ensures Adds(s, HeadEnd(s, pgn), DueDown(s, FirstTitle(s.captures), pgn))
  {
    var n := FirstTitle(s.captures);
    var f := FinishDown(s, n, pgn);
    DownConserves(s, n, pgn);
    hide Steady, FinishDown, DueDown, Adds;
    SameTotals(s, f, HeadEnd(s, pgn), DueDown(s, n, pgn));
  }

  lemma EndSettles(s: Html, tag: Tag, pgn: string -> Option<nat>)
    requires Steady(s) && Books(s) && !OnEnd(s, tag, pgn).failed
    ensures Settles(s, OnEnd(s, tag, pgn), DueAtEnd(s, tag, pgn), DroppedAtEnd(s, tag, pgn))
  {
    hide Steady, Books, Adds, Settles, DueDown, HeadEnd, BodyEnd, FinishDown;
    if Unheard(s, tag) {
      SameTextAdds(s, OnEnd(s, tag, pgn));
      AddsSettles(s, OnEnd(s, tag, pgn), multiset{});
    } else if tag == Head {
      HeadEndSettles(s, pgn);
      AddsSettles(s, OnEnd(s, tag, pgn), DueDown(s, FirstTitle(s.captures), pgn));
    } else {
      BodyEndSettles(s, tag, pgn);
    }
  }

  /** Every event settles: what was published or waiting, what it owes, and what it drops balance. */
  lemma StepSettles(s: Html, token: Token, pgn: string -> Option<nat>)
    requires Steady(s) && Books(s) && !s.failed && !Step(s, token, pgn).failed
    ensures Settles(s, Step(s, token, pgn), DueAt(s, token, pgn), DroppedAt(s, token, pgn))
  {
    hide Steady, Books, Adds, Settles, OnStart, OnEnd, DueAtStart, DueAtEnd, DroppedAtEnd;
    match token
    case Start(tag, attrs) =>
      StartConserves(s, tag, attrs, pgn);
      AddsSettles(s, OnStart(s, tag, attrs, pgn), DueAtStart(s, tag, attrs, pgn));
    case End(tag) => EndSettles(s, tag, pgn);
    case Data(text) =>
      SameTextAdds(s, OnData(s, text));
      AddsSettles(s, OnData(s, text), multiset{});
  }

  // ----- whole documents

  function DueAlong(s: Html, tokens: seq<Token>, pgn: string -> Option<nat>): multiset<string>
    decreases |tokens|
  {
    if tokens == [] then multiset{}
    else DueAt(s, tokens[0], pgn) + DueAlong(Step(s, tokens[0], pgn), tokens[1..], pgn)
  }

  function DroppedAlong(s: Html, tokens: seq<Token>, pgn: string -> Option<nat>): multiset<string>
    decreases |tokens|
  {
    if tokens == [] then multiset{}
    else DroppedAt(s, tokens[0], pgn) + DroppedAlong(Step(s, tokens[0], pgn), tokens[1..], pgn)
  }

  lemma SettlesTwice(s: Html, t: Html, u: Html, a: multiset<string>, x: multiset<string>, b: multiset<string>,
                     y: multiset<string>)
    requires Settles(s, t, a, x) && Settles(t, u, b, y)
    ensures Settles(s, u, a + b, x + y)
  {
    calc {
      Total(u) + (x + y);
      (Total(u) + y) + x;
      (Total(t) + x) + b;
      Total(s) + (a + b);
    }
  }

  lemma SettlesBooks(s: Html, t: Html, a: multiset<string>, x: multiset<string>)
    requires Settles(s, t, a, x)
    ensures Books(t)
  {
  }

  lemma {:induction false} RunSettles(s: Html, tokens: seq<Token>, pgn: string -> Option<nat>)
    requires Steady(s) && Books(s) && !Run(s, tokens, pgn).failed
    ensures Settles(s, Run(s, tokens, pgn), DueAlong(s, tokens, pgn), DroppedAlong(s, tokens, pgn))
    decreases |tokens|
  {
    hide Steady, Grown, Books, Settles, Step, DueAt, DroppedAt, Adds;
    if tokens == [] {
      UnchangedAdds(s);
      AddsSettles(s, s, multiset{});
    } else {
      var t := Step(s, tokens[0], pgn);
      if s.failed || t.failed {
        FailedStays(if s.failed then s else t, if s.failed then tokens else tokens[1..], pgn);
      } else {
        StepOnward(s, tokens[0], pgn);
        StepSettles(s, tokens[0], pgn);
        SettlesBooks(s, t, DueAt(s, tokens[0], pgn), DroppedAt(s, tokens[0], pgn));
        RunSettles(t, tokens[1..], pgn);
        SettlesTwice(s, t, Run(t, tokens[1..], pgn), DueAt(s, tokens[0], pgn), DroppedAt(s, tokens[0], pgn),
                     DueAlong(t, tokens[1..], pgn), DroppedAlong(t, tokens[1..], pgn));
      }
    }
  }

  /** What a document owes: the words of every capture it closes and of all it shows, the end closing what is open. */
  function DocumentDue(tokens: seq<Token>, pgn: string -> Option<nat>): multiset<string> {
    var s := Run(Fresh(), tokens, pgn);
    DueAlong(Fresh(), tokens, pgn) + DueDown(s.(head := 0, suppressed := [], hidden := []), 0, pgn)
  }

  lemma CloseSettles(s: Html, pgn: string -> Option<nat>)
    requires Steady(s) && Books(s) && !OnClose(s, pgn).failed
    ensures OnClose(s, pgn).lists == []
    ensures Adds(s, OnClose(s, pgn), DueDown(s.(head := 0, suppressed := [], hidden := []), 0, pgn))
  {
    hide Steady, Grown, Books, Adds, FinishDown, DueDown, EmitLists;
    var p := s.(head := 0, suppressed := [], hidden := []);
    OtherFieldsKeep(s, p);
    SameTextAdds(s, p);
    AddsBooks(s, p, multiset{});
    var t := FinishDown(p, 0, pgn);
    EmitListsFails(t);
    assert !t.failed;
    DownConserves(p, 0, pgn);
    AddsBooks(p, t, DueDown(p, 0, pgn));
    ListsAdd(t);
    var due := DueDown(p, 0, pgn);
    AddsTwice(s, p, t, multiset{}, due);
    AddsTwice(s, t, EmitLists(t), multiset{} + due, multiset{});
    assert multiset{} + due + multiset{} == due;
  }

  /** A document that imports publishes exactly the words it owes, but for the items of nested lists dropped. */
  lemma DocumentConserves(tokens: seq<Token>, pgn: string -> Option<nat>)
    requires !OnClose(Run(Fresh(), tokens, pgn), pgn).failed
    ensures var t := OnClose(Run(Fresh(), tokens, pgn), pgn);
      Spoken(t.blocks) + DroppedAlong(Fresh(), tokens, pgn) == DocumentDue(tokens, pgn)
  {
    var s := Run(Fresh(), tokens, pgn);
    var t := OnClose(s, pgn);
    FreshSteady();
    assert Books(Fresh()) && Total(Fresh()) == multiset{};
    RunOnward(Fresh(), tokens, pgn);
    hide Steady, Grown, Books, Adds, OnClose, Run, DueAlong, DroppedAlong, DueDown, Spoken;
    assert !s.failed by {
      ClosedFailed(s, pgn);
    }
    RunSettles(Fresh(), tokens, pgn);
    SettlesBooks(Fresh(), s, DueAlong(Fresh(), tokens, pgn), DroppedAlong(Fresh(), tokens, pgn));
    CloseSettles(s, pgn);
    Balance(s, t, DueAlong(Fresh(), tokens, pgn), DroppedAlong(Fresh(), tokens, pgn),
            DueDown(s.(head := 0, suppressed := [], hidden := []), 0, pgn));
  }

  lemma ClosedFailed(s: Html, pgn: string -> Option<nat>)
    requires !OnClose(s, pgn).failed
    ensures !s.failed
  {
  }

  lemma Balance(s: Html, t: Html, due: multiset<string>, dropped: multiset<string>, last: multiset<string>)
    requires Settles(Fresh(), s, due, dropped) && Adds(s, t, last) && t.lists == [] && Total(Fresh()) == multiset{}
    ensures Spoken(t.blocks) + dropped == due + last
  {
    assert Total(t) == Spoken(t.blocks) + multiset{} == Spoken(t.blocks);
    calc {
      Spoken(t.blocks) + dropped;
      (Total(s) + last) + dropped;
      (Total(s) + dropped) + last;
      (multiset{} + due) + last;
      due + last;
    }
  }

  // ----- what dropping nested items can lose

  const UL := Listed(false)

  const LI := Captured(ItemText, 0)

  const PLAIN := Attrs(false, None, "", false, false)

  /** A list inside a list with no item around it: `<ul><ul><li>x</li></ul></ul>`. */
  function BareNesting(): seq<Token> {
    [Start(UL, PLAIN), Start(UL, PLAIN), Start(LI, PLAIN), Data("x"), End(LI), End(UL), End(UL)]
  }

  function Nested2(captures: seq<Capture>, items: seq<string>, boundaries: nat): Html {
    Fresh().(lists := [Listing(false, false, true, []), Listing(false, true, true, items)],
             captures := captures, boundaries := boundaries)
  }

  function Bare(parts: seq<string>, eager: string): Capture {
    Capture(LI, ItemText, parts, 3, 2, [], None, 0, 0, eager)
  }

  lemma NestingOpens(pgn: string -> Option<nat>)
    ensures Step(Step(Fresh(), Start(UL, PLAIN), pgn), Start(UL, PLAIN), pgn) == Nested2([], [], 2)
  {
    var s1 := Fresh().(lists := [Listing(false, false, false, [])], boundaries := 1);
    assert Step(Fresh(), Start(UL, PLAIN), pgn) == s1;
    assert Step(s1, Start(UL, PLAIN), pgn) == Nested2([], [], 2);
  }

  lemma ItemHeard(pgn: string -> Option<nat>)
    ensures Step(Nested2([], [], 2), Start(LI, PLAIN), pgn) == Nested2([Bare([], "")], [], 3)
    ensures Step(Nested2([Bare([], "")], [], 3), Data("x"), pgn) == Nested2([Bare(["x"], "x")], [], 3)
  {
    assert Nested2([], [], 2).captures + [Bare([], "")] == [Bare([], "")];
    var s4 := Step(Nested2([Bare([], "")], [], 3), Data("x"), pgn);
    assert Synced(Bare([], ""), 3, "x") == Bare(["x"], "x") by {
      assert [] + ["x"] == ["x"] && "" + "x" == "x";
    }
    assert !AnyTitle([Bare([], "")]);
    assert s4.captures == [Bare(["x"], "x")];
  }

  lemma OneLetter()
    ensures Joined(["x"]) == "x" && Compact("x") == "x"
  {
    assert ["x"][..0] == [];
    OneWord("x");
  }

  lemma ItemTaken(pgn: string -> Option<nat>)
    ensures FinishCapture(Nested2([], [], 3), Bare(["x"], "x"), pgn) == Nested2([], ["x"], 3)
  {
    OneLetter();
    hide Joined, Compact, Words;
    var p := Nested2([], [], 3);
    assert [] + ["x"] == ["x"] && !Splits([]);
    assert p.lists[1 := p.lists[1].(items := ["x"])] == Nested2([], ["x"], 3).lists;
  }

  lemma ItemCollected(pgn: string -> Option<nat>)
    ensures Step(Nested2([Bare(["x"], "x")], [], 3), End(LI), pgn) == Nested2([], ["x"], 4)
  {
    var s := Nested2([Bare(["x"], "x")], [], 3);
    assert s.captures[..0] == [] && s.(captures := []) == Nested2([], [], 3);
    ItemTaken(pgn);
    hide FinishCapture;
    assert FinishTop(s, pgn) == Nested2([], ["x"], 3);
    assert FinishDown(s, 0, pgn) == Nested2([], ["x"], 3);
  }

  lemma NestingCloses(pgn: string -> Option<nat>)
    ensures var t := Step(Step(Nested2([], ["x"], 4), End(UL), pgn), End(UL), pgn);
      t == Fresh().(boundaries := 6) && OnClose(t, pgn) == t
  {
    var s6 := Fresh().(lists := [Listing(false, false, true, [])], boundaries := 5);
    assert Step(Nested2([], ["x"], 4), End(UL), pgn) == s6;
    assert Step(s6, End(UL), pgn) == Fresh().(boundaries := 6);
  }

  lemma StepsOf(s: Html, first: Token, rest: seq<Token>, pgn: string -> Option<nat>)
    ensures Run(s, [first] + rest, pgn) == Run(Step(s, first, pgn), rest, pgn)
  {
    assert ([first] + rest)[1..] == rest;
  }

  /** Words can be lost in that way: the item of a list nested without an item around it is heard but in no block. */
  lemma NestedItemsLost(pgn: string -> Option<nat>)
    ensures var s := Run(Fresh(), BareNesting()[..4], pgn); |s.captures| == 1 && s.captures[0].parts == ["x"]
    ensures var t := OnClose(Run(Fresh(), BareNesting(), pgn), pgn); !t.failed && t.blocks == []
  {
    NestingOpens(pgn);
    ItemHeard(pgn);
    ItemCollected(pgn);
    NestingCloses(pgn);
    hide Step, OnClose;
    var open := [Start(UL, PLAIN), Start(UL, PLAIN), Start(LI, PLAIN), Data("x")];
    var close := [End(LI), End(UL), End(UL)];
    assert BareNesting()[..4] == open && BareNesting() == open + close;
    RunThree(Nested2([Bare(["x"], "x")], [], 3), close, pgn);
    RunFour(Fresh(), open, pgn);
    RunOn(Fresh(), open, close, pgn);
  }

  lemma RunThree(s: Html, ts: seq<Token>, pgn: string -> Option<nat>)
    requires |ts| == 3
    ensures Run(s, ts, pgn) == Step(Step(Step(s, ts[0], pgn), ts[1], pgn), ts[2], pgn)
  {
    hide Step;
    assert ts == [ts[0]] + ([ts[1]] + ([ts[2]] + []));
    StepsOf(s, ts[0], [ts[1]] + ([ts[2]] + []), pgn);
    StepsOf(Step(s, ts[0], pgn), ts[1], [ts[2]] + [], pgn);
    StepsOf(Step(Step(s, ts[0], pgn), ts[1], pgn), ts[2], [], pgn);
  }
}
