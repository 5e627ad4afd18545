/** The parser object as it runs: fields updated by every event, loops over captures and inline events, each proved to
    do what the functions of HtmlEvents say. */
module HtmlParser {
  import opened Base
  import opened Text
  import opened HtmlEvents
  import opened HtmlOrder
  import opened HtmlText

  /** The same state, or both have raised an error: what an aborted import leaves behind is of no interest. */
  predicate Agree(a: Html, b: Html) {
    a == b || (a.failed && b.failed)
  }

  /** What `handle_data` does to one capture. */
  function Given(c: Capture, toTitles: bool, boundaries: nat, text: string): Capture {
    if !toTitles then Synced(c, boundaries, text)
    else if Owns(c) then c else c.(parts := c.parts + [text])
  }

  class Parser {
    const pgn: string -> Option<nat>
    var blocks: seq<Block>
    var made: nat
    var captures: seq<Capture>
    var lists: seq<Listing>
    var suppressed: seq<Tag>
    var hidden: seq<Tag>
    var head: nat
    var boundaries: nat
    var failed: bool
    var late: bool

    function State(): Html
      reads this
    {
      Html(blocks, made, captures, lists, suppressed, hidden, head, boundaries, failed, late)
    }

    constructor (pgn: string -> Option<nat>)
      ensures State() == Fresh() && this.pgn == pgn
    {
      this.pgn := pgn;
      blocks, made, captures, lists, suppressed, hidden := [], 0, [], [], [], [];
      head, boundaries, failed, late := 0, 0, false, false;
    }

    /** `_append_block`. */
    method AppendBlock(kind: BlockKind, text: string)
      modifies this
      ensures State() == Publish(old(State()), kind, text)
    {
      blocks := blocks + [Block(made, kind, text)];
      made := made + 1;
    }

    /** `_block_identity_index`. */
    method IdentityIndex(serial: nat) returns (r: Option<nat>)
      ensures r == IndexOf(blocks, serial)
    {
      for i := 0 to |blocks|
        invariant forall k :: 0 <= k < i ==> blocks[k].serial != serial
      {
        if blocks[i].serial == serial {
          FirstIndex(blocks, serial, i);
          return Some(i);
        }
      }
      NoIndex(blocks, serial);
      return None;
    }

    /** `_insert_block` before the block of an event; the import fails when that block is lost. */
    method Insert(anchor: nat, kind: BlockKind, text: string) returns (ok: bool)
      modifies this
      ensures ok <==> InsertBefore(old(State()), anchor, kind, text).Some?
      ensures State() == if ok then InsertBefore(old(State()), anchor, kind, text).value else old(State())
      ensures State() == old(State()).(blocks := blocks, made := made)
    {
      var at := IdentityIndex(anchor);
      if at.None? {
        return false;
      }
      blocks := blocks[..at.value] + [Block(made, kind, text)] + blocks[at.value..];
      made := made + 1;
      return true;
    }

    /** `_nearest_inline_owner_capture`. */
    method NearestOwner() returns (o: Option<nat>)
      ensures o == Owner(captures)
    {
      var i := |captures|;
      assert captures[..i] == captures;
      while i > 0
        invariant i <= |captures| && Owner(captures) == Owner(captures[..i])
      {
        assert captures[..i][..i - 1] == captures[..i - 1];
        if Owns(captures[i - 1]) {
          return Some(i - 1);
        }
        i := i - 1;
      }
      return None;
    }

    /** `handle_data`: the text goes to every open capture, after the boundaries it has not taken yet. */
    method HandleData(text: string)
      modifies this
      ensures State() == OnData(old(State()), text)
    {
      if suppressed != [] || hidden != [] {
        return;
      }
      ghost var before := captures;
      var toTitles := head > 0 || exists i :: 0 <= i < |captures| && captures[i].kind == TitleText;
      for i := 0 to |captures|
        invariant |captures| == |before| && State() == old(State()).(captures := captures)
        invariant forall k :: 0 <= k < i ==> captures[k] == Given(before[k], toTitles, boundaries, text)
        invariant forall k :: i <= k < |captures| ==> captures[k] == before[k]
      {
        var c := captures[i];
        if toTitles {
          if c.kind == TitleText {
            captures := captures[i := c.(parts := c.parts + [text])];
          }
        } else {
          if boundaries > c.synced {
            assert c.parts + [Breaks(boundaries - c.synced)] + [text] ==
                c.parts + [Breaks(boundaries - c.synced), text];
            c := c.(parts := c.parts + [Breaks(boundaries - c.synced)], synced := boundaries);
          }
          captures := captures[i := c.(parts := c.parts + [text], eager := c.eager + text)];
        }
      }
      assert captures == OnData(old(State()), text).captures;
    }

    /** The shared loop of `_finish_inline_paragraph`, `_finish_inline_heading` and `_finish_inline_list_item`. */
    method FinishInline(c: Capture)
      modifies this
      ensures Agree(State(), Woven(old(State()), c))
    {
      hide Compact, Joined, InsertBefore;
      ghost var s0 := State();
      var cursor: nat, started := 0, false;
      for i := 0 to |c.events|
        invariant cursor <= |c.parts|
        invariant Weave(s0, c.kind, c.parts, c.events, 0, false) ==
            Weave(State(), c.kind, c.parts, c.events[i..], cursor, started)
      {
        var e := c.events[i];
        assert c.events[i..][0] == e && c.events[i..][1..] == c.events[i + 1..];
        if e.part < cursor || e.part > |c.parts| || Resume(e) < e.part || Resume(e) > |c.parts| {
          failed := true;
          return;
        }
        var segment := Compact(Joined(c.parts[cursor..e.part]));
        if segment != "" || (c.kind == ItemText && !started) {
          var text := if segment == "" then "\U{2022}" else Projected(c.kind, started, segment);
          var ok := Insert(e.block, ProjectedKind(c.kind, started), text);
          if !ok {
            failed := true;
            return;
          }
          started := true;
        }
        cursor := Resume(e);
      }
      assert c.events[|c.events|..] == [];
      var trailing := Compact(Joined(c.parts[cursor..]));
      if trailing != "" {
        AppendBlock(ProjectedKind(c.kind, started), Projected(c.kind, started, trailing));
      }
    }

    /** `_finish_inline_list_item`: items collected before go first, as plain paragraphs. */
    method FinishListItem(c: Capture)
      requires c.events != []
      modifies this
      ensures Agree(State(), FinishItem(old(State()), c))
    {
      hide Weave, InsertBefore;
      if !(lists != [] && c.depth == |lists|) {
        FinishInline(c);
        return;
      }
      ghost var s0 := State();
      var l := lists[|lists| - 1];
      for i := 0 to |l.items|
        invariant lists == s0.lists
        invariant Flushed(s0, c.events[0].block, l.items) == Flushed(State(), c.events[0].block, l.items[i..])
      {
        assert l.items[i..][0] == l.items[i] && l.items[i..][1..] == l.items[i + 1..];
        if l.items[i] != "" {
          var ok := Insert(c.events[0].block, Paragraph, "\U{2022} " + l.items[i]);
          if !ok {
            failed := true;
            return;
          }
        }
      }
      assert l.items[|l.items|..] == [];
      lists := lists[|lists| - 1 := l.(items := [], unsupported := true)];
      FinishInline(c);
    }

    /** `_finish_capture`. */
    method FinishOne(c: Capture)
      modifies this
      ensures Agree(State(), FinishCapture(old(State()), c, pgn))
    {
      hide Compact, Joined, Woven, FinishItem;
      var raw := Joined(c.parts);
      var text := Compact(raw);
      if c.kind == TitleText {
        return;
      }
      var split := exists i :: 0 <= i < |c.events| && (!c.events[i].structural || c.events[i].forces);
      if c.kind == ItemText && split {
        FinishListItem(c);
        return;
      }
      if text == "" {
        return;
      }
      var slots := pgn(raw);
      if split && (c.kind == PreText ==> slots.None?) {
        FinishInline(c);
        return;
      }
      match c.kind
      case HeadingText => AppendBlock(HeadingBlock, text);
      case ItemText =>
        if lists != [] && c.depth == |lists| {
          lists := lists[|lists| - 1 := lists[|lists| - 1].(items := lists[|lists| - 1].items + [text])];
        } else {
          AppendBlock(Paragraph, "\U{2022} " + text);
        }
      case PreText =>
        if slots.Some? {
          for i := 0 to slots.value
            invariant Slots(old(State()), slots.value) == Slots(State(), slots.value - i)
          {
            AppendBlock(PgnSlot, "");
          }
        } else {
          AppendBlock(Paragraph, text);
        }
      case ParagraphText => AppendBlock(Paragraph, text);
      case RowText => AppendBlock(Paragraph, text);
      case TitleText =>
    }

    /** `_finish_capture_and_record_parent` of the topmost capture, popped first. */
    method FinishTopmost()
      requires captures != [] && !failed
      modifies this
      ensures Agree(State(), FinishTop(old(State()), pgn))
      ensures !failed ==> |captures| == |old(captures)| - 1
    {
      hide FinishCapture;
      ghost var s0 := State();
      FinishTopTouches(s0, pgn);
      var n := |captures| - 1;
      var c := captures[n];
      captures := captures[..n];
      FinishTouches(State(), c, pgn);
      FinishOne(c);
      if failed || c.parent.None? || c.parent.value >= |captures| || |blocks| <= c.firstBlock {
        return;
      }
      var o := c.parent.value;
      var forces := Splits(c.events) || HasSlot(blocks[c.firstBlock..]);
      var e := Inline(c.parentPart, blocks[c.firstBlock].serial, true, forces, Some(|captures[o].parts|));
      late := late || c.parentPart < LastResume(captures[o].events, 0);
      captures := captures[o := captures[o].(events := captures[o].events + [e])];
    }

    /** Closing captures from the top until n are left. */
    method FinishAbove(n: nat)
      requires n <= |captures| && !failed
      modifies this
      ensures Agree(State(), FinishDown(old(State()), n, pgn))
      ensures !failed ==> |captures| == n
    {
      hide FinishTop;
      ghost var s0 := State();
      while !failed && |captures| > n
        invariant !failed ==> n <= |captures| && FinishDown(s0, n, pgn) == FinishDown(State(), n, pgn)
        invariant failed ==> FinishDown(s0, n, pgn).failed
        decreases if failed then 0 else |captures| + 1
      {
        ghost var s := State();
        FinishTopTouches(s, pgn);
        FinishTopmost();
      }
    }

    /** `_append_text_boundary`: one counter, whatever the number of open captures. */
    method AppendBoundary()
      modifies this
      ensures State() == Boundary(old(State()))
    {
      boundaries := boundaries + 1;
      captures := Boundary(State()).captures;   // the eager texts only
    }

    /** A space for list items at a depth, or at any smaller one. */
    method AppendSpaces(depth: nat, below: bool)
      modifies this
      ensures State() == if below then SpaceBelow(old(State()), depth) else SpaceAt(old(State()), depth)
    {
      ghost var before := captures;
      for i := 0 to |captures|
        invariant |captures| == |before| && State() == old(State()).(captures := captures)
        invariant forall k :: 0 <= k < i ==> captures[k] == Roomed(before[k], depth, below)
        invariant forall k :: i <= k < |captures| ==> captures[k] == before[k]
      {
        var c := captures[i];
        if c.kind == ItemText && (if below then c.depth < depth else c.depth == depth) {
          captures := captures[i := c.(parts := c.parts + [" "], eager := c.eager + " ")];
        }
      }
      assert captures == (if below then SpaceBelow(old(State()), depth) else SpaceAt(old(State()), depth)).captures;
    }

    /** `_emit_list`. */
    method Emit(l: Listing)
      modifies this
      ensures State() == EmitList(old(State()), l)
    {
      if forall i :: 0 <= i < |l.items| ==> l.items[i] == "" {
        return;
      }
      if !l.unsupported {
        AppendBlock(ListBlock, JoinWith(l.items, '\n'));
        return;
      }
      ghost var s0 := State();
      for i := 0 to |l.items|
        invariant PublishItems(s0, l.items) == PublishItems(State(), l.items[i..])
      {
        assert l.items[i..][0] == l.items[i] && l.items[i..][1..] == l.items[i + 1..];
        if l.items[i] != "" {
          AppendBlock(Paragraph, "\U{2022} " + l.items[i]);
        }
      }
      assert l.items[|l.items|..] == [];
    }

    /** The image and position branches of `handle_starttag`, with `_record_inline_semantic`. */
    method Show(tag: Tag, attrs: Attrs)
      modifies this
      ensures State() == Rich(old(State()), tag, attrs)
    {
      var serial := made;
      if tag == Image {
        if attrs.position.Some? {
          AppendBlock(Chess, attrs.position.value);
        } else if attrs.alt != "" {
          AppendBlock(Note, attrs.alt);
        } else {
          return;
        }
      } else if attrs.position.Some? && head == 0 {
        AppendBlock(Chess, attrs.position.value);
      } else {
        return;
      }
      var o := NearestOwner();
      if o.Some? {
        var c := captures[o.value];
        captures := captures[o.value := c.(events := c.events + [Inline(|c.parts|, serial, false, false, None)])];
      }
    }

    /** The part of `handle_starttag` that a readable element reaches. */
    method Open(tag: Tag, attrs: Attrs)
      modifies this
      ensures State() == Opened(old(State()), tag, attrs)
    {
      hide Rich, Boundary, SpaceAt, SpaceBelow;
      if IsBlock(tag) {
        AppendBoundary();
      }
      Show(tag, attrs);
      match tag
      case Listed(ordered) => OpenNewList(ordered, attrs);
      case Captured(kind, name) => OpenNewCapture(tag, attrs);
      case _ =>
    }

    method OpenNewList(ordered: bool, attrs: Attrs)
      modifies this
      ensures State() == OpenList(old(State()), ordered, attrs)
    {
      var nested := lists != [];
      if nested {
        AppendSpaces(|lists|, false);
        lists := lists[|lists| - 1 := lists[|lists| - 1].(unsupported := true)];
      }
      lists := lists + [Listing(ordered, nested, nested || attrs.awkward, [])];
    }

    method OpenNewCapture(tag: Tag, attrs: Attrs)
      requires tag.Captured?
      modifies this
      ensures State() == OpenCapture(old(State()), tag, attrs)
    {
      hide SpaceAt, SpaceBelow;
      if tag.kind == ItemText && lists != [] {
        if attrs.value {
          lists := lists[|lists| - 1 := lists[|lists| - 1].(unsupported := true)];
        }
        AppendSpaces(|lists|, true);
      }
      var o := NearestOwner();
      var part := if o.Some? then |captures[o.value].parts| else 0;
      var depth := if tag.kind == ItemText then |lists| else 0;
      captures := captures + [Capture(tag, tag.kind, [], boundaries, depth, [], o, part, |blocks|, "")];
    }

    /** `handle_starttag`. */
    method HandleStart(tag: Tag, attrs: Attrs)
      requires !failed
      modifies this
      ensures Agree(State(), OnStart(old(State()), tag, attrs, pgn))
    {
      hide FinishDown, Opened;
      if tag.Suppressed? {
        suppressed := suppressed + [tag];
      } else if suppressed != [] {
      } else if hidden != [] {
        if !IsVoid(tag) {
          hidden := hidden + [tag];
        }
      } else if tag == Head {
        head := head + 1;
      } else {
        if head > 0 && tag == Body {
          FinishAbove(FirstTitle(captures));
          if failed {
            return;
          }
          head := 0;
        }
        if head > 0 && !IsTitle(tag) && tag != Meta {
          return;
        }
        if attrs.hidden {
          if !IsVoid(tag) {
            hidden := hidden + [tag];
          }
          return;
        }
        Open(tag, attrs);
      }
    }

    /** The end of a list: its open item first, then the list itself. */
    method EndList()
      requires lists != [] && !failed
      modifies this
      ensures Agree(State(), CloseList(old(State()), pgn))
    {
      hide FinishDown, EmitList, SpaceAt;
      FinishAbove(TopItem(captures, |lists|));
      if failed {
        return;
      }
      var l := lists[|lists| - 1];
      lists := lists[..|lists| - 1];
      if l.nested {
        AppendSpaces(|lists|, false);
      } else {
        Emit(l);
      }
    }

    /** `handle_endtag`. */
    method HandleEnd(tag: Tag)
      requires !failed
      modifies this
      ensures Agree(State(), OnEnd(old(State()), tag, pgn))
    {
      hide FinishDown, CloseList, Boundary;
      if tag.Suppressed? {
        if suppressed != [] && suppressed[|suppressed| - 1] == tag {
          suppressed := suppressed[..|suppressed| - 1];
        }
      } else if suppressed != [] {
      } else if hidden != [] {
        if hidden[|hidden| - 1] == tag {
          hidden := hidden[..|hidden| - 1];
        }
      } else if tag == Head {
        FinishAbove(FirstTitle(captures));
        if !failed && head > 0 {
          head := head - 1;
        }
      } else if head > 0 && !IsTitle(tag) && tag != Meta {
      } else {
        FinishAbove(TopTagged(captures, tag));
        if !failed && tag.Listed? && lists != [] && lists[|lists| - 1].ordered == tag.ordered {
          EndList();
        }
        if !failed && IsBlock(tag) {
          AppendBoundary();
        }
      }
    }

    /** One token: an error exactly when it closes disordered events that must be woven; otherwise every anchor is
        published, late boundaries change no text, and the blocks published before stay in order. */
    method TakeToken(token: Token)
      requires !failed && Steady(State())
      modifies this
      ensures Agree(State(), Step(old(State()), token, pgn))
      ensures failed <==> Disorders(old(State()), token, pgn)
      ensures !failed ==> Steady(State()) && Intact(State()) && Elder(blocks, old(made)) == old(blocks)
    {
      hide Steady, Disorders, OnStart, OnEnd, OnData, Intact;
      ghost var s := State();
      StepOnward(s, token, pgn);
      StepExactly(s, token, pgn);
      if Steady(Step(s, token, pgn)) {
        SteadyIntact(Step(s, token, pgn));
      }
      match token
      case Start(tag, attrs) => HandleStart(tag, attrs);
      case End(tag) => HandleEnd(tag);
      case Data(text) => HandleData(text);
    }

    /** One token of the stream after another, then the end of the document. An error is raised exactly when something
        disordered is closed, never when titles open outside running text; otherwise the book has exactly the words the
        document owes, but for nested items dropped. */
    method Feed(tokens: seq<Token>)
      requires State() == Fresh()
      modifies this
      ensures Agree(State(), OnClose(Run(Fresh(), tokens, pgn), pgn))
      ensures failed <==> DocumentDisorders(tokens, pgn)
      ensures TitlesApart(Fresh(), tokens, pgn) ==> !failed
      ensures !failed ==> Spoken(blocks) + DroppedAlong(Fresh(), tokens, pgn) == DocumentDue(tokens, pgn)
    {
      if !OnClose(Run(Fresh(), tokens, pgn), pgn).failed {
        DocumentConserves(tokens, pgn);
      }
      DocumentFailsExactly(tokens, pgn);
      if TitlesApart(Fresh(), tokens, pgn) {
        NoBoundaryError(tokens, pgn);
      }
      FreshSteady();
      hide Step, FinishDown, EmitLists, Steady, Intact, Disorders, DocumentDisorders, TitlesApart, Elder;
      hide Spoken, DroppedAlong, DocumentDue;
      for i := 0 to |tokens|
        invariant !failed && Steady(State()) && Run(Fresh(), tokens, pgn) == Run(State(), tokens[i..], pgn)
      {
        ghost var s := State();
        assert tokens[i..][0] == tokens[i] && tokens[i..][1..] == tokens[i + 1..];
        TakeToken(tokens[i]);
        if failed {
          FailedStays(Step(s, tokens[i], pgn), tokens[i + 1..], pgn);
          return;
        }
      }
      assert tokens[|tokens|..] == [];
      head, suppressed, hidden := 0, [], [];
      FinishAbove(0);
      if failed {
        return;
      }
      EmitOpenLists();
    }

    /** At the end of the document the lists still open are published as plain paragraphs. */
    method EmitOpenLists()
      modifies this
      ensures State() == EmitLists(old(State()))
    {
      hide EmitLists, EmitList;
      ghost var t := State();
      while lists != []
        invariant EmitLists(t) == EmitLists(State())
        decreases |lists|
      {
        var l := lists[|lists| - 1];
        ghost var u := State();
        lists := lists[..|lists| - 1];
        Emit(l.(unsupported := true));
        EmitListsStep(u);
      }
      EmitListsStep(State());
    }
  }

  /** The space a list item at or below a depth is given. */
  function Roomed(c: Capture, depth: nat, below: bool): Capture {
    if c.kind == ItemText && (if below then c.depth < depth else c.depth == depth) then Spaced1(c) else c
  }

  lemma EmitListsStep(s: Html)
    ensures EmitLists(s) ==
      if s.lists == [] then s
      else EmitLists(EmitList(s.(lists := s.lists[..|s.lists| - 1]), s.lists[|s.lists| - 1].(unsupported := true)))
  {
  }

  lemma {:induction false} FirstIndex(bs: seq<Block>, serial: nat, i: nat)
    requires i < |bs| && bs[i].serial == serial && forall k :: 0 <= k < i ==> bs[k].serial != serial
    ensures IndexOf(bs, serial) == Some(i)
    decreases |bs|
  {
    if i > 0 {
      assert bs[0].serial != serial;
      FirstIndex(bs[1..], serial, i - 1);
    }
  }

  lemma NoIndex(bs: seq<Block>, serial: nat)
    requires forall k :: 0 <= k < |bs| ==> bs[k].serial != serial
    ensures IndexOf(bs, serial) == None
  {
  }
}
