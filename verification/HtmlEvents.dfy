/** The inline-event machine of the HTML book importer (acs/book_html_import.py): captures open and close over a
    stream of start, end and data events, and rich content inside them is woven back in source order. */
module HtmlEvents {
  import opened Base
  import opened Text

  // ----- the stream

  datatype CaptureKind = TitleText | HeadingText | ParagraphText | ItemText | RowText | PreText

  /** Element names, grouped by what the importer does with them; `name` tells the members of a group apart. */
  datatype Tag =
    | Suppressed(name: nat)
    | Head
    | Body
    | Meta
    | Captured(kind: CaptureKind, name: nat)
    | Listed(ordered: bool)
    | Image
    | Void(name: nat, block: bool)
    | Plain(name: nat, block: bool)

  /** What matters of the attributes; an invalid position marker would have ended the import. */
  datatype Attrs = Attrs(hidden: bool, position: Option<string>, alt: string, awkward: bool, value: bool)

  datatype Token = Start(tag: Tag, attrs: Attrs) | End(tag: Tag) | Data(text: string)

  predicate IsVoid(t: Tag) {
    t == Image || t == Meta || t.Void?
  }

  predicate IsBlock(t: Tag) {
    match t
    case Captured(kind, _) => kind != TitleText
    case Listed(_) => true
    case Void(_, block) => block
    case Plain(_, block) => block
    case _ => false
  }

  // ----- state

  datatype BlockKind = Note | Chess | Paragraph | HeadingBlock | ListBlock | PgnSlot

  /** A published block; the serial number is its identity. */
  datatype Block = Block(serial: nat, kind: BlockKind, text: string)

  /** A place inside a capture where another block stands: its part index, and where the text resumes. */
  datatype Inline = Inline(part: nat, block: nat, structural: bool, forces: bool, resume: Option<nat>)

  datatype Capture = Capture(
    tag: Tag,
    kind: CaptureKind,
    parts: seq<string>,
    synced: nat,           // boundaries already in the parts
    depth: nat,            // lists open around a list item
    events: seq<Inline>,
    parent: Option<nat>,   // the owner below it on the stack
    parentPart: nat,
    firstBlock: nat,
    eager: string          // the text with every boundary appended at once; for the statements only
  )

  datatype Listing = Listing(ordered: bool, nested: bool, unsupported: bool, items: seq<string>)

  datatype Html = Html(
    blocks: seq<Block>,
    made: nat,
    captures: seq<Capture>,
    lists: seq<Listing>,
    suppressed: seq<Tag>,
    hidden: seq<Tag>,
    head: nat,
    boundaries: nat,
    failed: bool,          // an ordering error was raised
    late: bool             // a capture was recorded on its owner behind later content; for the statements only
  )

  function Fresh(): Html {
    Html([], 0, [], [], [], [], 0, 0, false, false)
  }

  // ----- text

  /** `_compact`. */
  function Compact(s: string): string {
    if Words(s) == [] then "" else Spaced(Words(s))
  }

  function Joined(parts: seq<string>): string {
    if parts == [] then "" else Joined(parts[..|parts| - 1]) + parts[|parts| - 1]
  }

  function Breaks(n: nat): string {
    seq(n, i => '\n')
  }

  // ----- blocks

  function IndexOf(bs: seq<Block>, serial: nat): (r: Option<nat>)
    ensures r.Some? ==> r.value < |bs| && bs[r.value].serial == serial
    ensures r.None? ==> forall b :: b in bs ==> b.serial != serial
  {
    if bs == [] then None
    else if bs[0].serial == serial then Some(0)
    else
      var rest := IndexOf(bs[1..], serial);
      if rest.None? then None else Some(rest.value + 1)
  }

  function Publish(s: Html, kind: BlockKind, text: string): Html {
    s.(blocks := s.blocks + [Block(s.made, kind, text)], made := s.made + 1)
  }

  /** `_insert_block` at the index of a block already published; None when that block is not there. */
  function InsertBefore(s: Html, anchor: nat, kind: BlockKind, text: string): Option<Html> {
    var at := IndexOf(s.blocks, anchor);
    if at.None? then None
    else Some(s.(blocks := s.blocks[..at.value] + [Block(s.made, kind, text)] + s.blocks[at.value..],
                 made := s.made + 1))
  }

  // ----- captures

  /** The captures that own inline content: all but titles. */
  predicate Owns(c: Capture) {
    c.kind != TitleText
  }

  /** The topmost capture that owns inline content. */
  function Owner(cs: seq<Capture>): (o: Option<nat>)
    ensures o.Some? ==> o.value < |cs| && Owns(cs[o.value]) && forall i :: o.value < i < |cs| ==> !Owns(cs[i])
    ensures o.None? ==> forall i :: 0 <= i < |cs| ==> !Owns(cs[i])
  {
    if cs == [] then None
    else if Owns(cs[|cs| - 1]) then Some(|cs| - 1)
    else Owner(cs[..|cs| - 1])
  }

  function Record(s: Html, owner: nat, e: Inline): Html
    requires owner < |s.captures|
  {
    var c := s.captures[owner];
    s.(captures := s.captures[owner := c.(events := c.events + [e])])
  }

  function Mapped(cs: seq<Capture>, f: Capture -> Capture): (ds: seq<Capture>)
    ensures |ds| == |cs| && forall i :: 0 <= i < |cs| ==> ds[i] == f(cs[i])
  {
    seq(|cs|, i requires 0 <= i < |cs| => f(cs[i]))
  }

  /** `_append_text_boundary`. */
  function Boundary(s: Html): Html {
    s.(boundaries := s.boundaries + 1,
       captures := Mapped(s.captures, (c: Capture) => if Owns(c) then c.(eager := c.eager + "\n") else c))
  }

  /** Appends text to one capture, with the boundaries it has not yet taken. */
  function Synced(c: Capture, boundaries: nat, text: string): Capture {
    if boundaries > c.synced
    then c.(parts := c.parts + [Breaks(boundaries - c.synced), text], synced := boundaries, eager := c.eager + text)
    else c.(parts := c.parts + [text], eager := c.eager + text)
  }

  function Spaced1(c: Capture): Capture {
    c.(parts := c.parts + [" "], eager := c.eager + " ")
  }

  /** A space for the list items at this depth, or at any smaller one. */
  function SpaceAt(s: Html, depth: nat): Html {
    s.(captures := Mapped(s.captures, (c: Capture) => if c.kind == ItemText && c.depth == depth then Spaced1(c) else c))
  }

  function SpaceBelow(s: Html, depth: nat): Html {
    s.(captures := Mapped(s.captures, (c: Capture) => if c.kind == ItemText && c.depth < depth then Spaced1(c) else c))
  }

  predicate AnyTitle(cs: seq<Capture>) {
    exists i :: 0 <= i < |cs| && cs[i].kind == TitleText
  }

  /** `handle_data`. */
  function OnData(s: Html, text: string): Html {
    if s.suppressed != [] || s.hidden != [] then s
    else if s.head > 0 || AnyTitle(s.captures) then
      s.(captures := Mapped(s.captures, (c: Capture) => if Owns(c) then c else c.(parts := c.parts + [text])))
    else s.(captures := Mapped(s.captures, (c: Capture) => Synced(c, s.boundaries, text)))
  }

  // ----- closing a capture

  function Resume(e: Inline): nat {
    if e.resume.Some? then e.resume.value else e.part
  }

  /** Where the text resumes after the last of the events. */
  function LastResume(events: seq<Inline>, cursor: nat): nat {
    if events == [] then cursor else Resume(events[|events| - 1])
  }

  /** A child that had to split, or direct rich content, forces the capture to split. */
  predicate Splits(events: seq<Inline>) {
    exists i :: 0 <= i < |events| && (!events[i].structural || events[i].forces)
  }

  function ProjectedKind(kind: CaptureKind, started: bool): BlockKind {
    if kind == HeadingText && !started then HeadingBlock else Paragraph
  }

  function Projected(kind: CaptureKind, started: bool, segment: string): string {
    if kind == ItemText && !started then "\U{2022} " + segment else segment
  }

  /** `_finish_inline_paragraph`, `_finish_inline_heading` and the loop of `_finish_inline_list_item`: the text
      between the events becomes fragments, each placed before its event's block; None when an error is raised. */
  function Weave(s: Html, kind: CaptureKind, parts: seq<string>, events: seq<Inline>, cursor: nat,
                 started: bool): Option<Html>
    requires cursor <= |parts|
    decreases |events|
  {
    if events == [] then
      var trailing := Compact(Joined(parts[cursor..]));
      Some(if trailing == "" then s else Publish(s, ProjectedKind(kind, started), Projected(kind, started, trailing)))
    else
      var e := events[0];
      if e.part < cursor || e.part > |parts| || Resume(e) < e.part || Resume(e) > |parts| then None else
      var segment := Compact(Joined(parts[cursor..e.part]));
      if segment == "" && (kind != ItemText || started) then Weave(s, kind, parts, events[1..], Resume(e), started) else
      var text := if segment == "" then "\U{2022}" else Projected(kind, started, segment);
      var t := InsertBefore(s, e.block, ProjectedKind(kind, started), text);
      if t.None? then None else Weave(t.value, kind, parts, events[1..], Resume(e), true)
  }

  function Raised(s: Html): Html {
    s.(failed := true)
  }

  function Woven(s: Html, c: Capture): Html {
    var t := Weave(s, c.kind, c.parts, c.events, 0, false);
    if t.None? then Raised(s) else t.value
  }

  /** Plain items collected so far go before the first rich block of the list. */
  function Flushed(s: Html, anchor: nat, items: seq<string>): Option<Html>
    decreases |items|
  {
    if items == [] then Some(s)
    else if items[0] == "" then Flushed(s, anchor, items[1..])
    else
      var t := InsertBefore(s, anchor, Paragraph, "\U{2022} " + items[0]);
      if t.None? then None else Flushed(t.value, anchor, items[1..])
  }

  predicate InTopList(s: Html, c: Capture) {
    s.lists != [] && c.depth == |s.lists|
  }

  function WithTopList(s: Html, l: Listing): Html
    requires s.lists != []
  {
    s.(lists := s.lists[|s.lists| - 1 := l])
  }

  /** `_finish_inline_list_item`. */
  function FinishItem(s: Html, c: Capture): Html
    requires c.events != []
  {
    if !InTopList(s, c) then Woven(s, c) else
    var l := s.lists[|s.lists| - 1];
    var t := Flushed(s, c.events[0].block, l.items);
    if t.None? then Raised(s)
    else Woven(t.value.(lists := s.lists[|s.lists| - 1 := l.(items := [], unsupported := true)]), c)
  }

  function Slots(s: Html, n: nat): Html
    decreases n
  {
    if n == 0 then s else Slots(Publish(s, PgnSlot, ""), n - 1)
  }

  /** `_finish_capture`; pgn gives the candidates of an explicitly marked `pre`, None when it is not marked. */
  function FinishCapture(s: Html, c: Capture, pgn: string -> Option<nat>): Html {
    var raw := Joined(c.parts);
    var text := Compact(raw);
    if c.kind == TitleText then s
    else if c.kind == ItemText && Splits(c.events) then FinishItem(s, c)
    else if text == "" then s
    else if Splits(c.events) && (c.kind == PreText ==> pgn(raw).None?) then Woven(s, c)
    else match c.kind
      case HeadingText => Publish(s, HeadingBlock, text)
      case ItemText =>
        if InTopList(s, c) then WithTopList(s, s.lists[|s.lists| - 1].(items := s.lists[|s.lists| - 1].items + [text]))
        else Publish(s, Paragraph, "\U{2022} " + text)
      case PreText => if pgn(raw).Some? then Slots(s, pgn(raw).value) else Publish(s, Paragraph, text)
      case _ => Publish(s, Paragraph, text)
  }

  predicate HasSlot(bs: seq<Block>) {
    exists i :: 0 <= i < |bs| && bs[i].kind == PgnSlot
  }

  /** `_finish_capture_and_record_parent` of the topmost capture. */
  function FinishTop(s: Html, pgn: string -> Option<nat>): (t: Html)
    requires s.captures != []
  {
    var n := |s.captures| - 1;
    var c := s.captures[n];
    var t := FinishCapture(s.(captures := s.captures[..n]), c, pgn);
    if t.failed || c.parent.None? || c.parent.value >= |t.captures| || |t.blocks| <= c.firstBlock then t
    else
      var o := c.parent.value;
      var forces := Splits(c.events) || HasSlot(t.blocks[c.firstBlock..]);
      var e := Inline(c.parentPart, t.blocks[c.firstBlock].serial, true, forces, Some(|t.captures[o].parts|));
      Record(t, o, e).(late := t.late || c.parentPart < LastResume(t.captures[o].events, 0))
  }

  lemma {:induction false} WeaveCaptures(s: Html, kind: CaptureKind, parts: seq<string>, events: seq<Inline>,
                                         cursor: nat, started: bool)
    requires cursor <= |parts| && Weave(s, kind, parts, events, cursor, started).Some?
    ensures var t := Weave(s, kind, parts, events, cursor, started).value;
      t == s.(blocks := t.blocks, made := t.made)
    decreases |events|
  {
    hide Compact, Joined;
    if events != [] {
      var e := events[0];
      var segment := Compact(Joined(parts[cursor..e.part]));
      if segment == "" && (kind != ItemText || started) {
        WeaveCaptures(s, kind, parts, events[1..], Resume(e), started);
      } else {
        var text := if segment == "" then "\U{2022}" else Projected(kind, started, segment);
        var t := InsertBefore(s, e.block, ProjectedKind(kind, started), text);
        WeaveCaptures(t.value, kind, parts, events[1..], Resume(e), true);
      }
    }
  }

  lemma {:induction false} FlushedCaptures(s: Html, anchor: nat, items: seq<string>)
    requires Flushed(s, anchor, items).Some?
    ensures var t := Flushed(s, anchor, items).value; t == s.(blocks := t.blocks, made := t.made)
    decreases |items|
  {
    if items != [] {
      if items[0] == "" {
        FlushedCaptures(s, anchor, items[1..]);
      } else {
        FlushedCaptures(InsertBefore(s, anchor, Paragraph, "\U{2022} " + items[0]).value, anchor, items[1..]);
      }
    }
  }

  lemma {:induction false} SlotsCaptures(s: Html, n: nat)
    ensures var t := Slots(s, n); t == s.(blocks := t.blocks, made := t.made)
    decreases n
  {
    if n > 0 {
      SlotsCaptures(Publish(s, PgnSlot, ""), n - 1);
    }
  }

  /** t is s with other blocks, lists of the same number, and perhaps an error. */
  predicate Touches(s: Html, t: Html) {
    t == s.(blocks := t.blocks, made := t.made, lists := t.lists, failed := t.failed) && |t.lists| == |s.lists|
  }

  lemma WovenTouches(s: Html, c: Capture)
    ensures Touches(s, Woven(s, c))
  {
    hide Weave;
    if Weave(s, c.kind, c.parts, c.events, 0, false).Some? {
      WeaveCaptures(s, c.kind, c.parts, c.events, 0, false);
    }
  }

  lemma ItemTouches(s: Html, c: Capture)
    requires c.events != []
    ensures Touches(s, FinishItem(s, c))
  {
    hide Flushed, Woven;
    WovenTouches(s, c);
    if InTopList(s, c) {
      var l := s.lists[|s.lists| - 1];
      var t := Flushed(s, c.events[0].block, l.items);
      if t.Some? {
        FlushedCaptures(s, c.events[0].block, l.items);
        WovenTouches(t.value.(lists := s.lists[|s.lists| - 1 := l.(items := [], unsupported := true)]), c);
      }
    }
  }

  /** Closing a capture publishes blocks and may touch the top list; nothing else changes. */
  lemma FinishTouches(s: Html, c: Capture, pgn: string -> Option<nat>)
    ensures Touches(s, FinishCapture(s, c, pgn))
  {
    hide Compact, Joined, Woven, FinishItem, Slots;
    WovenTouches(s, c);
    if c.events != [] {
      ItemTouches(s, c);
    }
    if pgn(Joined(c.parts)).Some? {
      SlotsCaptures(s, pgn(Joined(c.parts)).value);
    }
  }

  lemma FinishTopTouches(s: Html, pgn: string -> Option<nat>)
    requires s.captures != []
    ensures var t := FinishTop(s, pgn);
      && |t.captures| == |s.captures| - 1 && |t.lists| == |s.lists|
      && t == s.(blocks := t.blocks, made := t.made, lists := t.lists, failed := t.failed, captures := t.captures,
                 late := t.late)
  {
    FinishTouches(s.(captures := s.captures[..|s.captures| - 1]), s.captures[|s.captures| - 1], pgn);
    hide FinishCapture;
  }

  /** Closing captures until n are left, or an error is raised. */
  function FinishDown(s: Html, n: nat, pgn: string -> Option<nat>): (t: Html)
    requires n <= |s.captures|
    ensures |t.lists| == |s.lists| && (t.failed || |t.captures| == n)
    ensures t == s.(blocks := t.blocks, made := t.made, lists := t.lists, failed := t.failed, captures := t.captures,
                    late := t.late)
    decreases |s.captures|
  {
    if s.failed || |s.captures| == n then s
    else
      FinishTopTouches(s, pgn);
      FinishDown(FinishTop(s, pgn), n, pgn)
  }

  // ----- the stream

  predicate IsTitle(t: Tag) {
    t.Captured? && t.kind == TitleText
  }

  function FirstTitle(cs: seq<Capture>): (r: nat)
    ensures r <= |cs|
    ensures r < |cs| ==> cs[r].kind == TitleText
  {
    if cs == [] || cs[0].kind == TitleText then 0 else 1 + FirstTitle(cs[1..])
  }

  /** The topmost capture of an element, the number of captures when there is none. */
  function TopTagged(cs: seq<Capture>, tag: Tag): (r: nat)
    ensures r <= |cs|
    decreases |cs|
  {
    if cs == [] then 0
    else if cs[|cs| - 1].tag == tag then |cs| - 1
    else
      var r := TopTagged(cs[..|cs| - 1], tag);
      if r == |cs| - 1 then |cs| else r
  }

  function TopItem(cs: seq<Capture>, depth: nat): (r: nat)
    ensures r <= |cs|
    decreases |cs|
  {
    if cs == [] then 0
    else if cs[|cs| - 1].kind == ItemText && cs[|cs| - 1].depth == depth then |cs| - 1
    else
      var r := TopItem(cs[..|cs| - 1], depth);
      if r == |cs| - 1 then |cs| else r
  }

  function PublishItems(s: Html, items: seq<string>): (t: Html)
    ensures t == s.(blocks := t.blocks, made := t.made)
    decreases |items|
  {
    if items == [] then s
    else PublishItems(if items[0] == "" then s else Publish(s, Paragraph, "\U{2022} " + items[0]), items[1..])
  }

  predicate AllEmpty(items: seq<string>) {
    forall i :: 0 <= i < |items| ==> items[i] == ""
  }

  /** `_emit_list`; the items of a list block are joined here, the source keeps them apart. */
  function EmitList(s: Html, l: Listing): (t: Html)
    ensures t == s.(blocks := t.blocks, made := t.made)
  {
    if AllEmpty(l.items) then s
    else if l.unsupported then PublishItems(s, l.items)
    else Publish(s, ListBlock, JoinWith(l.items, '\n'))
  }

  /** Direct rich content is published and recorded at the end of the topmost owner. */
  function Shown(s: Html, kind: BlockKind, text: string): Html {
    var t := Publish(s, kind, text);
    var o := Owner(t.captures);
    if o.None? then t else Record(t, o.value, Inline(|t.captures[o.value].parts|, s.made, false, false, None))
  }

  /** An image shows its marked position or its alternative text; other elements only a marked position. */
  function Rich(s: Html, tag: Tag, attrs: Attrs): Html {
    if attrs.position.Some? && (tag == Image || s.head == 0) then Shown(s, Chess, attrs.position.value)
    else if tag == Image && attrs.alt != "" then Shown(s, Note, attrs.alt)
    else s
  }

  function OpenList(s: Html, ordered: bool, attrs: Attrs): Html {
    var nested := s.lists != [];
    var t := if nested then WithTopList(SpaceAt(s, |s.lists|), s.lists[|s.lists| - 1].(unsupported := true)) else s;
    t.(lists := t.lists + [Listing(ordered, nested, nested || attrs.awkward, [])])
  }

  function OpenCapture(s: Html, tag: Tag, attrs: Attrs): Html
    requires tag.Captured?
  {
    var item := tag.kind == ItemText && s.lists != [];
    var t := if item && attrs.value then WithTopList(s, s.lists[|s.lists| - 1].(unsupported := true)) else s;
    var u := if item then SpaceBelow(t, |t.lists|) else t;
    Pushed(u, tag)
  }

  function Pushed(u: Html, tag: Tag): Html
    requires tag.Captured?
  {
    var o := Owner(u.captures);
    var part := if o.Some? then |u.captures[o.value].parts| else 0;
    var depth := if tag.kind == ItemText then |u.lists| else 0;
    u.(captures := u.captures + [Capture(tag, tag.kind, [], u.boundaries, depth, [], o, part, |u.blocks|, "")])
  }

  /** The part of `handle_starttag` that a readable element reaches. */
  function Opened(s: Html, tag: Tag, attrs: Attrs): Html {
    var bounded := if IsBlock(tag) then Boundary(s) else s;
    var rich := Rich(bounded, tag, attrs);
    match tag
    case Listed(ordered) => OpenList(rich, ordered, attrs)
    case Captured(_, _) => OpenCapture(rich, tag, attrs)
    case _ => rich
  }

  /** `handle_starttag`. */
  function OnStart(s: Html, tag: Tag, attrs: Attrs, pgn: string -> Option<nat>): Html {
    if tag.Suppressed? then s.(suppressed := s.suppressed + [tag])
    else if s.suppressed != [] then s
    else if s.hidden != [] then (if IsVoid(tag) then s else s.(hidden := s.hidden + [tag]))
    else if tag == Head then s.(head := s.head + 1)
    else
      var t := if s.head > 0 && tag == Body then FinishDown(s, FirstTitle(s.captures), pgn).(head := 0) else s;
      if t.failed || (t.head > 0 && !IsTitle(tag) && tag != Meta) then t
      else if attrs.hidden then (if IsVoid(tag) then t else t.(hidden := t.hidden + [tag]))
      else Opened(t, tag, attrs)
  }

  function CloseList(s: Html, pgn: string -> Option<nat>): Html
    requires s.lists != []
  {
    var t := FinishDown(s, TopItem(s.captures, |s.lists|), pgn);
    if t.failed then t else
    var l := t.lists[|t.lists| - 1];
    var u := t.(lists := t.lists[..|t.lists| - 1]);
    if l.nested then SpaceAt(u, |u.lists|) else EmitList(u, l)
  }

  /** `</head>`. */
  function HeadEnd(s: Html, pgn: string -> Option<nat>): Html {
    var t := FinishDown(s, FirstTitle(s.captures), pgn);
    if t.failed || t.head == 0 then t else t.(head := t.head - 1)
  }

  /** The end of a readable element: its capture, its list, its boundary. */
  function BodyEnd(s: Html, tag: Tag, pgn: string -> Option<nat>): Html {
    var t := FinishDown(s, TopTagged(s.captures, tag), pgn);
    if t.failed then t else
    var u := if tag.Listed? && t.lists != [] && t.lists[|t.lists| - 1].ordered == tag.ordered
      then CloseList(t, pgn) else t;
    if u.failed then u else if IsBlock(tag) then Boundary(u) else u
  }

  /** `handle_endtag`. */
  function OnEnd(s: Html, tag: Tag, pgn: string -> Option<nat>): Html {
    if tag.Suppressed? then
      (if s.suppressed != [] && s.suppressed[|s.suppressed| - 1] == tag
       then s.(suppressed := s.suppressed[..|s.suppressed| - 1]) else s)
    else if s.suppressed != [] then s
    else if s.hidden != [] then
      (if s.hidden[|s.hidden| - 1] == tag then s.(hidden := s.hidden[..|s.hidden| - 1]) else s)
    else if tag == Head then HeadEnd(s, pgn)
    else if s.head > 0 && !IsTitle(tag) && tag != Meta then s
    else BodyEnd(s, tag, pgn)
  }

  function Step(s: Html, token: Token, pgn: string -> Option<nat>): Html {
    if s.failed then s
    else match token
      case Start(tag, attrs) => OnStart(s, tag, attrs, pgn)
      case End(tag) => OnEnd(s, tag, pgn)
      case Data(text) => OnData(s, text)
  }

  function Run(s: Html, tokens: seq<Token>, pgn: string -> Option<nat>): Html
    decreases |tokens|
  {
    if tokens == [] then s else Run(Step(s, tokens[0], pgn), tokens[1..], pgn)
  }

  function EmitLists(s: Html): Html
    decreases |s.lists|
  {
    if s.lists == [] then s
    else EmitLists(EmitList(s.(lists := s.lists[..|s.lists| - 1]), s.lists[|s.lists| - 1].(unsupported := true)))
  }

  /** `close`. */
  function OnClose(s: Html, pgn: string -> Option<nat>): Html {
    if s.failed then s else
    var t := FinishDown(s.(head := 0, suppressed := [], hidden := []), 0, pgn);
    if t.failed then t else EmitLists(t)
  }

  // ----- boundaries taken late give the same text

  /** Only blanks at the end, or nothing at all. */
  predicate Gap(s: string) {
    s == "" || IsSpace(s[|s| - 1])
  }

  /** Texts that compact alike, and still do when both are continued alike. */
  predicate Alike(a: string, b: string) {
    Words(a) == Words(b) && Gap(a) == Gap(b)
  }

  /** How one more character changes the words. */
  function WithChar(ws: seq<string>, gap: bool, c: char): seq<string> {
    if IsSpace(c) then ws
    else if gap || ws == [] then ws + [[c]]
    else ws[..|ws| - 1] + [ws[|ws| - 1] + [c]]
  }

  lemma WordLengthSnoc(s: string, c: char)
    requires s != [] && !IsSpace(s[0])
    ensures WordLength(s + [c]) == if WordLength(s) == |s| && !IsSpace(c) then |s| + 1 else WordLength(s)
    decreases |s|
  {
    assert (s + [c])[1..] == s[1..] + [c];
    if |s| > 1 && !IsSpace(s[1]) {
      WordLengthSnoc(s[1..], c);
    }
  }

  lemma OneWord(s: string)
    requires s != [] && !IsSpace(s[0]) && WordLength(s) == |s|
    ensures Words(s) == [s] && !Gap(s)
  {
    hide IsSpace;
    WordsParted(s, |s|);
    assert s[..|s|] == s && s[|s|..] == [];
    assert s[|s| - 1] in s[..WordLength(s)];
  }

  lemma WordThenSpace(s: string, c: char)
    requires s != [] && !IsSpace(s[0]) && WordLength(s) == |s| && IsSpace(c)
    ensures Words(s + [c]) == [s]
  {
    hide IsSpace;
    WordLengthSnoc(s, c);
    WordsParted(s + [c], |s|);
    assert (s + [c])[..|s|] == s && (s + [c])[|s|..] == [c] && [c][1..] == [];
  }

  lemma LastWord(s: string, c: char)
    requires s != [] && WordLength(s) == |s| && !IsSpace(s[0])
    ensures Words(s + [c]) == WithChar(Words(s), Gap(s), c)
  {
    hide Words, WordLength, IsSpace, NoSpace, Gap;
    OneWord(s);
    if IsSpace(c) {
      WordThenSpace(s, c);
    } else {
      WordLengthSnoc(s, c);
      OneWord(s + [c]);
    }
  }

  lemma WithCharLater(head: string, ws: seq<string>, gap: bool, c: char)
    requires ws == [] ==> gap
    ensures WithChar([head] + ws, gap, c) == [head] + WithChar(ws, gap, c)
  {
    if ws != [] {
      var all := [head] + ws;
      assert all[|all| - 1] == ws[|ws| - 1] && all[..|all| - 1] == [head] + ws[..|ws| - 1];
    }
  }

  lemma WordsParted(s: string, n: nat)
    requires s != [] && !IsSpace(s[0]) && n == WordLength(s)
    ensures Words(s) == [s[..n]] + Words(s[n..])
  {
  }

  lemma SnocSlices(s: string, c: char, n: nat)
    requires n < |s|
    ensures (s + [c])[..n] == s[..n] && (s + [c])[n..] == s[n..] + [c] && s[n..][|s[n..]| - 1] == s[|s| - 1]
  {
  }

  /** After the first word the rest decides. */
  lemma RestParted(s: string, c: char, n: nat)
    requires s != [] && !IsSpace(s[0]) && n == WordLength(s) < |s|
    ensures Words(s) == [s[..n]] + Words(s[n..]) && Words(s + [c]) == [s[..n]] + Words(s[n..] + [c])
    ensures Gap(s[n..]) == Gap(s)
  {
    hide IsSpace, NoSpace, Words, WordLength;
    WordLengthSnoc(s, c);
    WordsParted(s, n);
    WordsParted(s + [c], n);
    SnocSlices(s, c, n);
  }

  lemma FirstWordStays(s: string, c: char)
    requires s != [] && !IsSpace(s[0]) && WordLength(s) < |s|
    requires var rest := s[WordLength(s)..]; Words(rest + [c]) == WithChar(Words(rest), Gap(rest), c)
    ensures Words(s + [c]) == WithChar(Words(s), Gap(s), c)
  {
    hide Words, WordLength, WithChar, IsSpace, NoSpace, Gap;
    var n := WordLength(s);
    var rest := s[n..];
    RestParted(s, c, n);
    if Words(rest) == [] {
      NoWords(rest);
    }
    WithCharLater(s[..n], Words(rest), Gap(rest), c);
  }

  lemma {:induction false} NoWords(s: string)
    requires Words(s) == []
    ensures Gap(s)
    decreases |s|
  {
    if s != [] {
      NoWords(s[1..]);
    }
  }

  lemma {:induction false} WordsSnoc(s: string, c: char)
    ensures Words(s + [c]) == WithChar(Words(s), Gap(s), c)
    decreases |s|
  {
    var t := s + [c];
    if s == [] {
      assert t == [c] && [c][1..] == [];
      assert !IsSpace(c) ==> WordLength([c]) == 1 && [c][..1] == [c];
    } else if IsSpace(s[0]) {
      assert t[1..] == s[1..] + [c];
      WordsSnoc(s[1..], c);
      if s[1..] == [] {
        assert s == [s[0]];
      }
    } else if WordLength(s) < |s| {
      WordsSnoc(s[WordLength(s)..], c);
      hide Words;
      FirstWordStays(s, c);
    } else {
      hide Words;
      LastWord(s, c);
    }
  }

  lemma {:induction false} AlikeContinued(a: string, b: string, x: string)
    requires Alike(a, b)
    ensures Alike(a + x, b + x)
    decreases |x|
  {
    if x == [] {
      assert a + x == a && b + x == b;
    } else {
      hide Words, WithChar;
      var n := |x| - 1;
      AlikeContinued(a, b, x[..n]);
      WordsSnoc(a + x[..n], x[n]);
      WordsSnoc(b + x[..n], x[n]);
      assert a + x == a + x[..n] + [x[n]] && b + x == b + x[..n] + [x[n]];
    }
  }

  /** Blanks at the end change no word. */
  lemma {:induction false} BlanksAdded(a: string, x: string)
    requires x != "" && Blank(x)
    ensures Words(a + x) == Words(a) && Gap(a + x)
    decreases |x|
  {
    var n := |x| - 1;
    assert x[n] in x;
    assert a + x == a + x[..n] + [x[n]];
    WordsSnoc(a + x[..n], x[n]);
    if n > 0 {
      BlanksAdded(a, x[..n]);
    } else {
      assert a + x[..n] == a;
    }
  }

  lemma JoinedSnoc(parts: seq<string>, p: string)
    ensures Joined(parts + [p]) == Joined(parts) + p
  {
    assert (parts + [p])[..|parts|] == parts;
  }

  /** The parts with their pending boundaries read like the eager text. */
  predicate Lazy(c: Capture, boundaries: nat) {
    c.synced <= boundaries && Alike(Joined(c.parts) + Breaks(boundaries - c.synced), c.eager)
  }

  lemma BreaksMore(t: string, n: nat)
    ensures t + Breaks(n) + "\n" == t + Breaks(n + 1) && t + Breaks(0) == t
  {
  }

  lemma BoundaryLazy(c: Capture, boundaries: nat)
    requires Lazy(c, boundaries)
    ensures Lazy(c.(eager := c.eager + "\n"), boundaries + 1)
  {
    var n := boundaries - c.synced;
    BreaksMore(Joined(c.parts), n);
    hide Alike, Breaks, Joined;
    AlikeContinued(Joined(c.parts) + Breaks(n), c.eager, "\n");
  }

  /** The joined text of a capture that has taken its boundaries and then some text. */
  lemma SyncedText(c: Capture, boundaries: nat, text: string)
    requires c.synced <= boundaries
    ensures Joined(Synced(c, boundaries, text).parts) == Joined(c.parts) + Breaks(boundaries - c.synced) + text
  {
    var n := boundaries - c.synced;
    hide Joined, Breaks;
    if n > 0 {
      JoinedSnoc(c.parts, Breaks(n));
      JoinedSnoc(c.parts + [Breaks(n)], text);
      assert Synced(c, boundaries, text).parts == c.parts + [Breaks(n)] + [text];
    } else {
      JoinedSnoc(c.parts, text);
      BreaksMore(Joined(c.parts), n);
    }
  }

  lemma SyncedLazy(c: Capture, boundaries: nat, text: string)
    requires Lazy(c, boundaries)
    ensures Lazy(Synced(c, boundaries, text), boundaries)
  {
    var n := boundaries - c.synced;
    var d := Synced(c, boundaries, text);
    assert d.synced == boundaries && d.eager == c.eager + text;
    SyncedText(c, boundaries, text);
    BreaksMore(Joined(d.parts), 0);
    hide Alike, Breaks, Joined, Synced;
    AlikeContinued(Joined(c.parts) + Breaks(n), c.eager, text);
  }

  predicate Blank(x: string) {
    forall c :: c in x ==> IsSpace(c)
  }

  lemma BlankTexts(t: string, n: nat)
    ensures Blank(Breaks(n)) && Blank(" " + Breaks(n)) && Blank(" ") && (n > 0 ==> Breaks(n) != "")
    ensures t + " " + Breaks(n) == t + (" " + Breaks(n)) && " " + Breaks(n) != ""
  {
  }

  lemma SpaceLazy(c: Capture, boundaries: nat)
    requires Lazy(c, boundaries)
    ensures Lazy(Spaced1(c), boundaries)
  {
    hide Breaks, Joined, IsSpace, Words, Gap, Blank;
    var t, n := Joined(c.parts), boundaries - c.synced;
    JoinedSnoc(c.parts, " ");
    BlankTexts(t, n);
    BlanksAdded(c.eager, " ");
    BlanksAdded(t, " " + Breaks(n));
    if n > 0 {
      BlanksAdded(t, Breaks(n));
    } else {
      BreaksMore(t, 0);
    }
  }

  /** Taken late, the boundaries leave the compacted text of a capture as if each had been appended at once. */
  lemma LazyCompacts(c: Capture, boundaries: nat)
    requires Lazy(c, boundaries)
    ensures Compact(Joined(c.parts)) == Compact(c.eager)
  {
    var n := boundaries - c.synced;
    BlankTexts(Joined(c.parts), n);
    if n > 0 {
      BlanksAdded(Joined(c.parts), Breaks(n));
    } else {
      BreaksMore(Joined(c.parts), 0);
    }
  }
}
