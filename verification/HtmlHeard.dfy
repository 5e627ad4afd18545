/** What open captures have heard (acs/book_html_import.py): the letters of a capture's text are exactly the letters
    of the data that reached it, in order; events, boundaries and closing children change none. */
module HtmlHeard {
  import opened Base
  import opened Text
  import opened HtmlEvents

  /** The characters of a text that are not blank. */
  function Ink(x: string): string {
    if x == "" then "" else (if IsSpace(x[0]) then "" else [x[0]]) + Ink(x[1..])
  }

  lemma {:induction false} InkConcat(a: string, b: string)
    ensures Ink(a + b) == Ink(a) + Ink(b)
  {
    if a == "" {
      assert a + b == b;
    } else {
      assert (a + b)[1..] == a[1..] + b;
      InkConcat(a[1..], b);
    }
  }

  lemma {:induction false} BlankInk(x: string)
    requires Blank(x)
    ensures Ink(x) == ""
  {
    if x != "" {
      assert x[0] in x && forall c :: c in x[1..] ==> c in x;
      BlankInk(x[1..]);
    }
  }

  /** The letters a capture has taken. */
  function Letters(c: Capture): string {
    Ink(Joined(c.parts))
  }

  lemma PartAdded(parts: seq<string>, p: string)
    ensures Ink(Joined(parts + [p])) == Ink(Joined(parts)) + Ink(p)
  {
    JoinedSnoc(parts, p);
    InkConcat(Joined(parts), p);
  }

  /** The captures both have are of the same kind and have the same letters. */
  predicate Same(s: seq<Capture>, t: seq<Capture>) {
    forall i :: 0 <= i < |s| && i < |t| ==> t[i].kind == s[i].kind && Letters(t[i]) == Letters(s[i])
  }

  lemma SameTwice(s: seq<Capture>, t: seq<Capture>, u: seq<Capture>)
    requires Same(s, t) && Same(t, u) && (|t| >= |s| || |t| >= |u|)
    ensures Same(s, u)
  {
  }

  lemma SpacedSame(c: Capture)
    ensures Letters(Spaced1(c)) == Letters(c)
  {
    PartAdded(c.parts, " ");
    BlankTexts("", 0);
    BlankInk(" ");
  }

  lemma SpacesSame(s: Html, depth: nat)
    ensures Same(s.captures, SpaceAt(s, depth).captures) && Same(s.captures, SpaceBelow(s, depth).captures)
  {
    forall c: Capture
      ensures Letters(Spaced1(c)) == Letters(c)
    {
      SpacedSame(c);
    }
    hide Letters;
  }

  lemma TopSame(s: Html, pgn: string -> Option<nat>)
    requires s.captures != []
    ensures Same(s.captures, FinishTop(s, pgn).captures) && |FinishTop(s, pgn).captures| == |s.captures| - 1
  {
    FinishTopTouches(s, pgn);
    FinishTouches(s.(captures := s.captures[..|s.captures| - 1]), s.captures[|s.captures| - 1], pgn);
    hide FinishCapture, Letters;
    assert forall c: Capture, e: seq<Inline> :: Letters(c.(events := e)) == Letters(c) by {
      EventsSame();
    }
  }

  lemma EventsSame()
    ensures forall c: Capture, e: seq<Inline> :: Letters(c.(events := e)) == Letters(c)
  {
  }

  lemma {:induction false} DownSame(s: Html, n: nat, pgn: string -> Option<nat>)
    requires n <= |s.captures|
    ensures Same(s.captures, FinishDown(s, n, pgn).captures) && n <= |FinishDown(s, n, pgn).captures| <= |s.captures|
    decreases |s.captures|
  {
    hide FinishTop, Letters;
    if !s.failed && |s.captures| > n {
      FinishTopTouches(s, pgn);
      TopSame(s, pgn);
      DownSame(FinishTop(s, pgn), n, pgn);
    }
  }

  lemma BoundarySame(s: Html)
    ensures Same(s.captures, Boundary(s).captures) && |Boundary(s).captures| == |s.captures|
  {
  }

  lemma RichSame(s: Html, tag: Tag, attrs: Attrs)
    ensures Same(s.captures, Rich(s, tag, attrs).captures) && |Rich(s, tag, attrs).captures| == |s.captures|
  {
    EventsSame();
    hide Letters;
  }

  lemma OpenListSame(s: Html, ordered: bool, attrs: Attrs)
    ensures Same(s.captures, OpenList(s, ordered, attrs).captures)
    ensures |OpenList(s, ordered, attrs).captures| == |s.captures|
  {
    SpacesSame(s, |s.lists|);
    hide Letters;
  }

  lemma PushedSame(s: Html, tag: Tag)
    requires tag.Captured?
    ensures var t := Pushed(s, tag);
      && |t.captures| == |s.captures| + 1 && t.captures[..|s.captures|] == s.captures
      && Letters(t.captures[|s.captures|]) == "" && t.captures[|s.captures|].kind == tag.kind
  {
    assert Pushed(s, tag).captures[|s.captures|].parts == [];
    assert Ink(Joined([])) == "";
    hide Joined, Ink;
  }

  lemma OpenCaptureSame(s: Html, tag: Tag, attrs: Attrs)
    requires tag.Captured?
    ensures var t := OpenCapture(s, tag, attrs);
      && Same(s.captures, t.captures) && |t.captures| == |s.captures| + 1
      && Letters(t.captures[|s.captures|]) == "" && t.captures[|s.captures|].kind == tag.kind
  {
    var item := tag.kind == ItemText && s.lists != [];
    var t := if item && attrs.value then WithTopList(s, s.lists[|s.lists| - 1].(unsupported := true)) else s;
    var u := if item then SpaceBelow(t, |t.lists|) else t;
    SpacesSame(t, |t.lists|);
    SpacesCount(t, |t.lists|);
    assert t.captures == s.captures;
    hide Letters, SpaceBelow, Pushed;
    PushedSame(u, tag);
    PrefixSame(s.captures, u.captures, Pushed(u, tag).captures);
  }

  lemma PrefixSame(a: seq<Capture>, b: seq<Capture>, c: seq<Capture>)
    requires Same(a, b) && |a| == |b| && b <= c
    ensures Same(a, c)
  {
  }

  lemma SpacesCount(s: Html, depth: nat)
    ensures |SpaceBelow(s, depth).captures| == |s.captures|
  {
  }

  lemma OpenedSame(s: Html, tag: Tag, attrs: Attrs)
    ensures var t := Opened(s, tag, attrs);
      && Same(s.captures, t.captures)
      && |t.captures| == |s.captures| + (if tag.Captured? then 1 else 0)
      && (tag.Captured? ==> Letters(t.captures[|s.captures|]) == "" && t.captures[|s.captures|].kind == tag.kind)
  {
    hide Letters, Rich, OpenList, OpenCapture, Boundary;
    var bounded := if IsBlock(tag) then Boundary(s) else s;
    BoundarySame(s);
    RichSame(bounded, tag, attrs);
    var rich := Rich(bounded, tag, attrs);
    SameTwice(s.captures, bounded.captures, rich.captures);
    match tag
    case Listed(ordered) =>
      OpenListSame(rich, ordered, attrs);
      SameTwice(s.captures, rich.captures, OpenList(rich, ordered, attrs).captures);
    case Captured(_, _) =>
      OpenCaptureSame(rich, tag, attrs);
      SameTwice(s.captures, rich.captures, OpenCapture(rich, tag, attrs).captures);
    case _ =>
  }

  /** Whether data reaches a capture: a title takes all that is read while it is open or in the head, and the others
      then nothing; suppressed and hidden text reaches none. */
  predicate Hears(s: Html, kind: CaptureKind) {
    s.suppressed == [] && s.hidden == [] && (kind == TitleText || !(s.head > 0 || AnyTitle(s.captures)))
  }

  lemma SyncedLetters(c: Capture, boundaries: nat, text: string)
    ensures Letters(Synced(c, boundaries, text)) == Letters(c) + Ink(text)
  {
    hide Ink, Joined, Breaks;
    if boundaries > c.synced {
      var breaks := Breaks(boundaries - c.synced);
      PartAdded(c.parts, breaks);
      PartAdded(c.parts + [breaks], text);
      assert c.parts + [breaks] + [text] == c.parts + [breaks, text];
      BlankTexts("", boundaries - c.synced);
      BlankInk(breaks);
      assert Letters(c) + "" + Ink(text) == Letters(c) + Ink(text);
    } else {
      PartAdded(c.parts, text);
    }
  }

  lemma DataHeard(s: Html, text: string, i: nat)
    requires i < |s.captures|
    ensures var t := OnData(s, text);
      && |t.captures| == |s.captures| && t.captures[i].kind == s.captures[i].kind
      && Letters(t.captures[i]) == Letters(s.captures[i]) + (if Hears(s, s.captures[i].kind) then Ink(text) else "")
  {
    var c := s.captures[i];
    SyncedLetters(c, s.boundaries, text);
    PartAdded(c.parts, text);
    if !(s.head > 0 || AnyTitle(s.captures)) {
      assert c.kind != TitleText;
    }
    hide Ink, Joined;
  }

  /** The start of an element that captures text is read. */
  predicate Readable(s: Html, tag: Tag, attrs: Attrs) {
    tag.Captured? && s.suppressed == [] && s.hidden == [] && (s.head == 0 || IsTitle(tag)) && !attrs.hidden
  }

  lemma StartSame(s: Html, tag: Tag, attrs: Attrs, pgn: string -> Option<nat>)
    requires !s.failed
    ensures var t := OnStart(s, tag, attrs, pgn);
      && Same(s.captures, t.captures)
      && (if Readable(s, tag, attrs)
          then |t.captures| == |s.captures| + 1 && Letters(t.captures[|s.captures|]) == ""
               && t.captures[|s.captures|].kind == tag.kind
          else |t.captures| <= |s.captures|)
  {
    hide Letters, FinishDown, Opened;
    var n := FirstTitle(s.captures);
    DownSame(s, n, pgn);
    var t := if s.head > 0 && tag == Body then FinishDown(s, n, pgn).(head := 0) else s;
    OpenedSame(t, tag, attrs);
  }

  lemma CloseListSame(s: Html, pgn: string -> Option<nat>)
    requires s.lists != []
    ensures Same(s.captures, CloseList(s, pgn).captures) && |CloseList(s, pgn).captures| <= |s.captures|
  {
    hide Letters, FinishDown, EmitList;
    DownSame(s, TopItem(s.captures, |s.lists|), pgn);
    var t := FinishDown(s, TopItem(s.captures, |s.lists|), pgn);
    var u := t.(lists := t.lists[..|t.lists| - 1]);
    SpacesSame(u, |u.lists|);
  }

  lemma BodyEndSame(s: Html, tag: Tag, pgn: string -> Option<nat>)
    ensures Same(s.captures, BodyEnd(s, tag, pgn).captures) && |BodyEnd(s, tag, pgn).captures| <= |s.captures|
  {
    hide Letters, FinishDown, CloseList, Boundary;
    DownSame(s, TopTagged(s.captures, tag), pgn);
    var t := FinishDown(s, TopTagged(s.captures, tag), pgn);
    BoundarySame(t);
    if t.lists != [] {
      var u := CloseList(t, pgn);
      CloseListSame(t, pgn);
      BoundarySame(u);
      SameTwice(s.captures, t.captures, u.captures);
    }
  }

  lemma EndSame(s: Html, tag: Tag, pgn: string -> Option<nat>)
    ensures Same(s.captures, OnEnd(s, tag, pgn).captures) && |OnEnd(s, tag, pgn).captures| <= |s.captures|
  {
    hide Letters, FinishDown, BodyEnd;
    DownSame(s, FirstTitle(s.captures), pgn);
    BodyEndSame(s, tag, pgn);
  }

  /** One event: data adds its letters to the captures it reaches, every other event leaves all letters alone. */
  lemma StepHeard(s: Html, token: Token, pgn: string -> Option<nat>, i: nat)
    requires i < |s.captures| && i < |Step(s, token, pgn).captures|
    ensures var c, d := s.captures[i], Step(s, token, pgn).captures[i];
      && d.kind == c.kind
      && Letters(d) == Letters(c) + (if token.Data? && !s.failed && Hears(s, c.kind) then Ink(token.text) else "")
  {
    hide Letters, OnStart, OnEnd, OnData, Hears, Ink;
    match token
    case Start(tag, attrs) =>
      if !s.failed {
        StartSame(s, tag, attrs, pgn);
      }
    case End(tag) => EndSame(s, tag, pgn);
    case Data(text) => DataHeard(s, text, i);
  }

  /** A capture at this height is open all along. */
  predicate StaysOpen(s: Html, tokens: seq<Token>, pgn: string -> Option<nat>, i: nat)
    decreases |tokens|
  {
    i < |s.captures| && (tokens == [] || StaysOpen(Step(s, tokens[0], pgn), tokens[1..], pgn, i))
  }

  /** The letters of the data that reaches a capture of this kind. */
  function Heard(s: Html, tokens: seq<Token>, pgn: string -> Option<nat>, kind: CaptureKind): string
    decreases |tokens|
  {
    if tokens == [] then ""
    else (if tokens[0].Data? && !s.failed && Hears(s, kind) then Ink(tokens[0].text) else "")
         + Heard(Step(s, tokens[0], pgn), tokens[1..], pgn, kind)
  }

  /** While a capture is open, its letters are those it had and exactly those of the data that reaches it, in order. */
  lemma {:induction false} RunHeard(s: Html, tokens: seq<Token>, pgn: string -> Option<nat>, i: nat)
    requires StaysOpen(s, tokens, pgn, i)
    ensures var t := Run(s, tokens, pgn);
      i < |t.captures| && Letters(t.captures[i]) == Letters(s.captures[i]) + Heard(s, tokens, pgn, s.captures[i].kind)
    decreases |tokens|
  {
    hide Letters, Step, Hears, Ink;
    if tokens != [] {
      StepHeard(s, tokens[0], pgn, i);
      RunHeard(Step(s, tokens[0], pgn), tokens[1..], pgn, i);
    }
  }

  /** Exactly the readable start of an element that captures text opens a capture, of its kind and with no letters
      yet. */
  lemma OpensExactly(s: Html, token: Token, pgn: string -> Option<nat>)
    ensures var t := Step(s, token, pgn);
      && (|t.captures| > |s.captures| <==> !s.failed && token.Start? && Readable(s, token.tag, token.attrs))
      && (|t.captures| > |s.captures| ==>
            |t.captures| == |s.captures| + 1 && t.captures[|s.captures|].kind == token.tag.kind
            && Letters(t.captures[|s.captures|]) == "")
  {
    hide Letters, OnStart, OnEnd, OnData, Readable;
    if !s.failed {
      match token
      case Start(tag, attrs) => StartSame(s, tag, attrs, pgn);
      case End(tag) => EndSame(s, tag, pgn);
      case Data(text) => DataCount(s, text);
    }
  }

  lemma DataCount(s: Html, text: string)
    ensures |OnData(s, text).captures| == |s.captures|
  {
  }
}
