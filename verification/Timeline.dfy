/** Undo and redo: the two stacks and the current position are one line of positions with a cursor on it. */
module Timeline {
  import opened Base
  import opened Text
  import opened Squares
  import opened Pieces
  import opened Position
  import opened Fen
  import opened Rules
  import opened Notation
  import opened Closure
  import opened SanRoundTrip

  /** A stack entry: the FEN to return to, and the SAN of the move between. */
  datatype Entry = Entry(text: string, san: string)

  datatype Session = Session(pos: Position, undo: seq<Entry>, redo: seq<Entry>)

  const NULL_SAN := "--"

  // ----- what the operations do; a refused operation raises ValueError

  ghost function Push(s: Session, m: Move): Session {
    if San(s.pos, m).Ok? then
      Session(Apply(s.pos, m), s.undo + [Entry(FenText(s.pos), San(s.pos, m).value)], [])
    else s
  }

  function PushNull(s: Session): Session {
    Session(ApplyNull(s.pos), s.undo + [Entry(FenText(s.pos), NULL_SAN)], [])
  }

  ghost function PushText(s: Session, t: string): Session {
    if NormSan(t) == NULL_SAN then PushNull(s)
    else if ParseMove(s.pos, t).Ok? then Push(s, ParseMove(s.pos, t).value)
    else s
  }

  /** The top undo entry goes to the redo stack with the current text; q becomes current. */
  function Back(s: Session, q: Position): Session
    requires s.undo != []
  {
    var n := |s.undo| - 1;
    Session(q, s.undo[..n], s.redo + [Entry(FenText(s.pos), s.undo[n].san)])
  }

  function Ahead(s: Session, q: Position): Session
    requires s.redo != []
  {
    var n := |s.redo| - 1;
    Session(q, s.undo + [Entry(FenText(s.pos), s.redo[n].san)], s.redo[..n])
  }

  /** The stacks move first; a target text `set_fen` rejects then leaves the position where it was. */
  ghost function Undo(s: Session): Session {
    if s.undo == [] then s else
    var back := ParseFen(s.undo[|s.undo| - 1].text);
    Back(s, if back.Ok? then back.value else s.pos)
  }

  ghost function Redo(s: Session): Session {
    if s.redo == [] then s else
    var ahead := ParseFen(s.redo[|s.redo| - 1].text);
    Ahead(s, if ahead.Ok? then ahead.value else s.pos)
  }

  ghost function Load(s: Session, t: string): Session {
    if ParseFen(t).Ok? then Session(ParseFen(t).value, [], []) else s
  }

  datatype Op = DoPush(m: Move) | DoNull | DoText(t: string) | DoUndo | DoRedo | DoLoad(t: string)

  ghost function Do(s: Session, op: Op): Session {
    match op
    case DoPush(m) => Push(s, m)
    case DoNull => PushNull(s)
    case DoText(t) => PushText(s, t)
    case DoUndo => Undo(s)
    case DoRedo => Redo(s)
    case DoLoad(t) => Load(s, t)
  }

  ghost function Run(s: Session, ops: seq<Op>): Session
    decreases |ops|
  {
    if ops == [] then s else Run(Do(s, ops[0]), ops[1..])
  }

  // ----- the rules hold along every run

  lemma PrintableKeepsRules(p: Position, m: Move)
    requires Valid(p) && San(p, m).Ok?
    ensures Legal(p, m) && !TakesKing(p, m) && Valid(Apply(p, m)) && Safe(Apply(p, m))
  {
    if TakesKing(p, m) {
      KingGone(p, m);
    } else {
      LegalMoveKeepsRules(p, m);
    }
  }

  lemma StepKeepsRules(s: Session, op: Op)
    requires Valid(s.pos)
    ensures Valid(Do(s, op).pos)
  {
    match op
    case DoPush(m) =>
      if San(s.pos, m).Ok? {
        PrintableKeepsRules(s.pos, m);
      }
    case DoNull => NullMoveKeepsRules(s.pos);
    case DoText(t) =>
      NullMoveKeepsRules(s.pos);
      if ParseMove(s.pos, t).Ok? && San(s.pos, ParseMove(s.pos, t).value).Ok? {
        PrintableKeepsRules(s.pos, ParseMove(s.pos, t).value);
      }
    case _ =>
  }

  /** From any accepted FEN, every run of every operation keeps all structural rules. */
  lemma {:induction false} RunKeepsRules(s: Session, ops: seq<Op>)
    requires Valid(s.pos)
    ensures Valid(Run(s, ops).pos)
    decreases |ops|
  {
    if ops != [] {
      StepKeepsRules(s, ops[0]);
      RunKeepsRules(Do(s, ops[0]), ops[1..]);
    }
  }

  // ----- the line

  /** The texts along the line: undone-to positions, the current one, redo targets nearest first. */
  function Texts(s: Session): (ts: seq<string>)
    ensures |ts| == |s.undo| + 1 + |s.redo|
  {
    seq(|s.undo|, i requires 0 <= i < |s.undo| => s.undo[i].text)
    + [FenText(s.pos)]
    + seq(|s.redo|, i requires 0 <= i < |s.redo| => s.redo[|s.redo| - 1 - i].text)
  }

  function Sans(s: Session): (ns: seq<string>)
    ensures |ns| == |s.undo| + |s.redo|
  {
    seq(|s.undo|, i requires 0 <= i < |s.undo| => s.undo[i].san)
    + seq(|s.redo|, i requires 0 <= i < |s.redo| => s.redo[|s.redo| - 1 - i].san)
  }

  /** q follows p by one null move, or by one legal move printed as san. */
  ghost predicate Follows(p: Position, san: string, q: Position) {
    || (san == NULL_SAN && q == ApplyNull(p))
    || (exists m :: San(p, m) == Ok(san) && q == Apply(p, m))
  }

  ghost predicate Link(a: string, san: string, b: string) {
    exists p, q :: Valid(p) && Valid(q) && FenText(p) == a && FenText(q) == b && Follows(p, san, q)
  }

  /** Each text on the line is one move after the text before it. */
  ghost predicate OneLine(s: Session) {
    forall i :: 0 <= i < |Sans(s)| ==> Link(Texts(s)[i], Sans(s)[i], Texts(s)[i + 1])
  }

  ghost predicate Sound(s: Session) {
    Valid(s.pos) && OneLine(s)
  }

  lemma LinkTurns(a: string, san: string, b: string)
    requires Link(a, san, b)
    ensures a != b
  {
    var p, q :| Valid(p) && Valid(q) && FenText(p) == a && FenText(q) == b && Follows(p, san, q);
    if a == b {
      FenInjective(p, q);
    }
  }

  /** A text on the line reads back exactly when it is within the limit. */
  lemma LinkedTextReads(a: string, san: string, b: string)
    requires Link(a, san, b)
    ensures ParseFen(a).Ok? <==> |a| <= MAX_FEN_CHARS
    ensures ParseFen(a).Ok? ==> FenText(ParseFen(a).value) == a
    ensures ParseFen(b).Ok? <==> |b| <= MAX_FEN_CHARS
    ensures ParseFen(b).Ok? ==> FenText(ParseFen(b).value) == b
  {
    var p, q :| Valid(p) && Valid(q) && FenText(p) == a && FenText(q) == b && Follows(p, san, q);
    FenRoundTrip(p);
    FenRoundTrip(q);
  }

  lemma AppendedTexts(s: Session, q: Position, san: string)
    ensures var t := Session(q, s.undo + [Entry(FenText(s.pos), san)], []);
      Texts(t) == Texts(s)[..|s.undo| + 1] + [FenText(q)] && Sans(t) == Sans(s)[..|s.undo|] + [san]
  {
  }

  /** A new move keeps the past, drops the redo part and appends one link. */
  lemma Appended(s: Session, q: Position, san: string)
    requires Sound(s) && Valid(q) && Follows(s.pos, san, q)
    ensures Sound(Session(q, s.undo + [Entry(FenText(s.pos), san)], []))
  {
    var t := Session(q, s.undo + [Entry(FenText(s.pos), san)], []);
    AppendedTexts(s, q, san);
    assert Link(FenText(s.pos), san, FenText(q));
    var n := |s.undo|;
    assert Texts(s)[n] == FenText(s.pos);
    forall i | 0 <= i <= n
      ensures Link(Texts(t)[i], Sans(t)[i], Texts(t)[i + 1])
    {
      if i < n {
        assert Link(Texts(s)[i], Sans(s)[i], Texts(s)[i + 1]);
      }
    }
  }

  /** The text an undo or redo must read back, if the operation has one. */
  function Target(s: Session, op: Op): Option<string> {
    match op
    case DoUndo => if s.undo == [] then None else Some(s.undo[|s.undo| - 1].text)
    case DoRedo => if s.redo == [] then None else Some(s.redo[|s.redo| - 1].text)
    case _ => None
  }

  predicate Stuck(s: Session, op: Op) {
    Target(s, op).Some? && |Target(s, op).value| > MAX_FEN_CHARS
  }

  lemma BackTexts(s: Session, q: Position)
    requires s.undo != []
    ensures Texts(Back(s, q)) == Texts(s)[|s.undo| - 1 := FenText(q)]
    ensures Sans(Back(s, q)) == Sans(s)
  {
  }

  lemma AheadTexts(s: Session, q: Position)
    requires s.redo != []
    ensures Texts(Ahead(s, q)) == Texts(s)[|s.undo| + 1 := FenText(q)]
    ensures Sans(Ahead(s, q)) == Sans(s)
  {
  }

  /** Undo moves the cursor one step back on an unchanged line, unless its target is too long to read. */
  lemma UndoMovesCursor(s: Session)
    requires Sound(s) && s.undo != []
    ensures !Stuck(s, DoUndo) ==>
      Texts(Undo(s)) == Texts(s) && Sans(Undo(s)) == Sans(s) && |Undo(s).undo| == |s.undo| - 1 && Sound(Undo(s))
    ensures Stuck(s, DoUndo) ==> !OneLine(Undo(s))
  {
    hide Valid, Link;
    var n := |s.undo| - 1;
    var t := Undo(s);
    assert Link(Texts(s)[n], Sans(s)[n], Texts(s)[n + 1]);
    LinkedTextReads(Texts(s)[n], Sans(s)[n], Texts(s)[n + 1]);
    BackTexts(s, t.pos);
    assert Texts(s)[n] == s.undo[|s.undo| - 1].text;
    if Stuck(s, DoUndo) {
      assert Texts(t)[n] == Texts(t)[n + 1] == FenText(s.pos);
      if OneLine(t) {
        assert Link(Texts(t)[n], Sans(t)[n], Texts(t)[n + 1]);
        LinkTurns(Texts(t)[n], Sans(t)[n], Texts(t)[n + 1]);
      }
    } else {
      assert FenText(t.pos) == Texts(s)[n];
      assert Texts(t) == Texts(s);
    }
  }

  /** Redo moves it one step ahead. */
  lemma RedoMovesCursor(s: Session)
    requires Sound(s) && s.redo != []
    ensures !Stuck(s, DoRedo) ==>
      Texts(Redo(s)) == Texts(s) && Sans(Redo(s)) == Sans(s) && |Redo(s).undo| == |s.undo| + 1 && Sound(Redo(s))
    ensures Stuck(s, DoRedo) ==> !OneLine(Redo(s))
  {
    hide Valid, Link;
    var n := |s.undo|;
    var t := Redo(s);
    assert Link(Texts(s)[n], Sans(s)[n], Texts(s)[n + 1]);
    LinkedTextReads(Texts(s)[n], Sans(s)[n], Texts(s)[n + 1]);
    AheadTexts(s, t.pos);
    assert Texts(s)[n + 1] == s.redo[|s.redo| - 1].text;
    if Stuck(s, DoRedo) {
      assert Texts(t)[n] == Texts(t)[n + 1] == FenText(s.pos);
      if OneLine(t) {
        assert Link(Texts(t)[n], Sans(t)[n], Texts(t)[n + 1]);
        LinkTurns(Texts(t)[n], Sans(t)[n], Texts(t)[n + 1]);
      }
    } else {
      assert FenText(t.pos) == Texts(s)[n + 1];
      assert Texts(t) == Texts(s);
    }
  }

  /** One operation keeps the single line exactly when it is not an undo or redo towards an overlong text. */
  lemma StepKeepsLine(s: Session, op: Op)
    requires Sound(s)
    ensures Sound(Do(s, op)) <==> !Stuck(s, op)
  {
    StepKeepsRules(s, op);
    match op
    case DoPush(m) => PushKeepsLine(s, m);
    case DoNull => Appended(s, ApplyNull(s.pos), NULL_SAN);
    case DoText(t) =>
      if NormSan(t) == NULL_SAN {
        Appended(s, ApplyNull(s.pos), NULL_SAN);
      } else if ParseMove(s.pos, t).Ok? {
        PushKeepsLine(s, ParseMove(s.pos, t).value);
      }
    case DoUndo =>
      if s.undo != [] {
        UndoMovesCursor(s);
      }
    case DoRedo =>
      if s.redo != [] {
        RedoMovesCursor(s);
      }
    case DoLoad(t) =>
  }

  lemma PushKeepsLine(s: Session, m: Move)
    requires Sound(s)
    ensures Sound(Push(s, m))
  {
    if San(s.pos, m).Ok? {
      PrintableKeepsRules(s.pos, m);
      Appended(s, Apply(s.pos, m), San(s.pos, m).value);
    }
  }

  lemma BackAhead(s: Session, q: Position)
    requires s.undo != [] && FenText(q) == s.undo[|s.undo| - 1].text
    ensures Ahead(Back(s, q), s.pos) == s
  {
    var n := |s.undo| - 1;
    assert s.undo[..n] + [s.undo[n]] == s.undo;
    assert Back(s, q).redo[..|s.redo|] == s.redo;
  }

  lemma AheadBack(s: Session, q: Position)
    requires s.redo != [] && FenText(q) == s.redo[|s.redo| - 1].text
    ensures Back(Ahead(s, q), s.pos) == s
  {
    var n := |s.redo| - 1;
    assert s.redo[..n] + [s.redo[n]] == s.redo;
    assert Ahead(s, q).undo[..|s.undo|] == s.undo;
  }

  /** Undo then redo is the identity on position and both stacks, given both texts read back. */
  lemma UndoRedo(s: Session)
    requires Sound(s) && s.undo != [] && !Stuck(s, DoUndo) && Fits(s.pos)
    ensures Redo(Undo(s)) == s
  {
    hide Valid, Link;
    var n := |s.undo| - 1;
    assert Link(Texts(s)[n], Sans(s)[n], Texts(s)[n + 1]);
    LinkedTextReads(Texts(s)[n], Sans(s)[n], Texts(s)[n + 1]);
    FenRoundTrip(s.pos);
    BackAhead(s, Undo(s).pos);
  }

  lemma RedoTargetReads(s: Session)
    requires Sound(s) && s.redo != [] && !Stuck(s, DoRedo)
    ensures Redo(s) == Ahead(s, Redo(s).pos) && FenText(Redo(s).pos) == s.redo[|s.redo| - 1].text
  {
    hide Valid, Link;
    var n := |s.undo|;
    assert Link(Texts(s)[n], Sans(s)[n], Texts(s)[n + 1]);
    LinkedTextReads(Texts(s)[n], Sans(s)[n], Texts(s)[n + 1]);
    assert Texts(s)[n + 1] == s.redo[|s.redo| - 1].text;
  }

  lemma RedoUndo(s: Session)
    requires Sound(s) && s.redo != [] && !Stuck(s, DoRedo) && Fits(s.pos)
    ensures Undo(Redo(s)) == s
  {
    RedoTargetReads(s);
    FenRoundTrip(s.pos);
    AheadBack(s, Redo(s).pos);
  }

  /** One undo takes back one push: position and undo stack as before, the pushed move ready to redo. */
  lemma PushThenUndo(s: Session, m: Move)
    requires Valid(s.pos) && San(s.pos, m).Ok?
    ensures Undo(Push(s, m)) ==
      Session(s.pos, s.undo, [Entry(FenText(Apply(s.pos, m)), San(s.pos, m).value)])
  {
    hide Valid, Apply;
    FenRoundTrip(s.pos);
    var t := Push(s, m);
    assert t.undo[..|t.undo| - 1] == s.undo;
  }

  // ----- whole runs stay on one line

  /** One chain at every point of the run. */
  ghost predicate AlwaysSound(s: Session, ops: seq<Op>)
    decreases |ops|
  {
    Sound(s) && (ops == [] || AlwaysSound(Do(s, ops[0]), ops[1..]))
  }

  /** No undo or redo of the run goes towards an overlong text. */
  ghost predicate NeverStuck(s: Session, ops: seq<Op>)
    decreases |ops|
  {
    ops == [] || (!Stuck(s, ops[0]) && NeverStuck(Do(s, ops[0]), ops[1..]))
  }

  /** A run of any length stays on one chain throughout exactly when it is never stuck. */
  lemma {:induction false} RunOnLineExactly(s: Session, ops: seq<Op>)
    requires Sound(s)
    ensures AlwaysSound(s, ops) <==> NeverStuck(s, ops)
    decreases |ops|
  {
    hide Sound, Do, Stuck;
    if ops != [] {
      StepKeepsLine(s, ops[0]);
      if !Stuck(s, ops[0]) {
        RunOnLineExactly(Do(s, ops[0]), ops[1..]);
      } else {
        UnsoundStart(Do(s, ops[0]), ops[1..]);
      }
    }
  }

  lemma UnsoundStart(s: Session, ops: seq<Op>)
    requires !Sound(s)
    ensures !AlwaysSound(s, ops)
  {
  }

  /** The counters a position may have. */
  predicate Within(p: Position, h: nat, f: nat) {
    p.halfmove <= h && p.fullmove <= f
  }

  /** Every text on the line comes from a valid position whose counters are at most h and f. */
  ghost predicate Small(s: Session, h: nat, f: nat) {
    forall i :: 0 <= i < |Texts(s)| ==> SmallText(Texts(s)[i], h, f)
  }

  ghost predicate SmallText(t: string, h: nat, f: nat) {
    exists p :: Valid(p) && FenText(p) == t && Within(p, h, f)
  }

  /** Counters whose digits leave room for any board. */
  predicate Room(h: nat, f: nat) {
    |Decimal(h)| + |Decimal(f)| <= 4002
  }

  lemma SmallTextFits(t: string, h: nat, f: nat)
    requires SmallText(t, h, f) && Room(h, f)
    ensures |t| <= MAX_FEN_CHARS
  {
    var p :| Valid(p) && FenText(p) == t && Within(p, h, f);
    DecimalMonotone(p.halfmove, h);
    DecimalMonotone(p.fullmove, f);
    RoomyFits(p);
  }

  lemma RoomKept(h: nat, f: nat, n: nat)
    requires Room(h + n, f + n)
    ensures Room(h, f)
  {
    hide Decimal;
    DecimalMonotone(h, h + n);
    DecimalMonotone(f, f + n);
  }

  lemma SmallCurrent(s: Session, h: nat, f: nat)
    requires Valid(s.pos) && Small(s, h, f)
    ensures Within(s.pos, h, f)
  {
    var i := |s.undo|;
    assert Texts(s)[i] == FenText(s.pos);
    var p :| Valid(p) && FenText(p) == Texts(s)[i] && Within(p, h, f);
    FenInjective(p, s.pos);
  }

  lemma MoveCounts(p: Position, san: string, q: Position, h: nat, f: nat)
    requires Follows(p, san, q) && Within(p, h, f)
    ensures Within(q, h + 1, f + 1)
  {
  }

  lemma AppendedSmall(s: Session, q: Position, san: string, h: nat, f: nat)
    requires Sound(s) && Small(s, h, f) && Valid(q) && Follows(s.pos, san, q)
    ensures Small(Session(q, s.undo + [Entry(FenText(s.pos), san)], []), h + 1, f + 1)
  {
    SmallCurrent(s, h, f);
    MoveCounts(s.pos, san, q, h, f);
    var t := Session(q, s.undo + [Entry(FenText(s.pos), san)], []);
    forall i | 0 <= i < |Texts(t)|
      ensures SmallText(Texts(t)[i], h + 1, f + 1)
    {
      if i <= |s.undo| {
        assert Texts(t)[i] == Texts(s)[i];
        SmallerText(Texts(s)[i], h, f);
      } else {
        assert Texts(t)[i] == FenText(q);
      }
    }
  }

  lemma SmallerText(t: string, h: nat, f: nat)
    requires SmallText(t, h, f)
    ensures SmallText(t, h + 1, f + 1)
  {
    var p :| Valid(p) && FenText(p) == t && Within(p, h, f);
    assert Within(p, h + 1, f + 1);
  }

  lemma SmallGrows(s: Session, t: Session, h: nat, f: nat)
    requires Small(s, h, f) && Texts(t) == Texts(s)
    ensures Small(t, h + 1, f + 1)
  {
    hide SmallText;
    forall i | 0 <= i < |Texts(t)|
      ensures SmallText(Texts(t)[i], h + 1, f + 1)
    {
      SmallerText(Texts(s)[i], h, f);
    }
  }

  /** What a load may bring in: nothing beyond these counters. */
  ghost predicate LoadsWithin(op: Op, h: nat, f: nat) {
    op.DoLoad? && ParseFen(op.t).Ok? ==> Within(ParseFen(op.t).value, h, f)
  }

  lemma SmallNotStuck(s: Session, op: Op, h: nat, f: nat)
    requires Sound(s) && Small(s, h, f) && Room(h, f)
    ensures !Stuck(s, op)
  {
    if Target(s, op).Some? {
      var i := if op.DoUndo? then |s.undo| - 1 else |s.undo| + 1;
      assert Texts(s)[i] == Target(s, op).value;
      SmallTextFits(Texts(s)[i], h, f);
    }
  }

  lemma StepSmall(s: Session, op: Op, h: nat, f: nat)
    requires Sound(s) && Small(s, h, f) && Room(h, f) && LoadsWithin(op, h, f)
    ensures !Stuck(s, op) && Sound(Do(s, op)) && Small(Do(s, op), h + 1, f + 1)
  {
    hide Do, Sound, Small, LoadsWithin, Stuck;
    SmallNotStuck(s, op, h, f);
    StepKeepsLine(s, op);
    StepSmallTexts(s, op, h, f);
  }

  lemma StepSmallTexts(s: Session, op: Op, h: nat, f: nat)
    requires Sound(s) && Small(s, h, f) && LoadsWithin(op, h, f) && !Stuck(s, op)
    ensures Small(Do(s, op), h + 1, f + 1)
  {
    SmallGrows(s, s, h, f);
    match op
    case DoPush(m) => PushSmall(s, m, h, f);
    case DoNull => NullSmall(s, h, f);
    case DoText(t) =>
      NullSmall(s, h, f);
      if ParseMove(s.pos, t).Ok? {
        PushSmall(s, ParseMove(s.pos, t).value, h, f);
      }
    case DoUndo =>
      if s.undo != [] {
        UndoMovesCursor(s);
        SmallGrows(s, Undo(s), h, f);
      }
    case DoRedo =>
      if s.redo != [] {
        RedoMovesCursor(s);
        SmallGrows(s, Redo(s), h, f);
      }
    case DoLoad(t) =>
      if ParseFen(t).Ok? {
        LoadedIsSound(s, t, h, f);
        SmallGrows(Load(s, t), Load(s, t), h, f);
      }
  }

  lemma NullSmall(s: Session, h: nat, f: nat)
    requires Sound(s) && Small(s, h, f)
    ensures Small(PushNull(s), h + 1, f + 1)
  {
    NullMoveKeepsRules(s.pos);
    AppendedSmall(s, ApplyNull(s.pos), NULL_SAN, h, f);
  }

  lemma PushSmall(s: Session, m: Move, h: nat, f: nat)
    requires Sound(s) && Small(s, h, f)
    ensures Small(Push(s, m), h + 1, f + 1)
  {
    SmallGrows(s, s, h, f);
    if San(s.pos, m).Ok? {
      PrintableKeepsRules(s.pos, m);
      AppendedSmall(s, Apply(s.pos, m), San(s.pos, m).value, h, f);
    }
  }

  /** A run cannot get stuck while the counters it can reach leave room for the text: each operation adds at most one to
      each counter. */
  lemma {:induction false} RunStaysOnLine(s: Session, ops: seq<Op>, h: nat, f: nat)
    requires Sound(s) && Small(s, h, f) && Room(h + |ops|, f + |ops|)
    requires forall op :: op in ops ==> LoadsWithin(op, h, f)
    ensures NeverStuck(s, ops) && AlwaysSound(s, ops) && Sound(Run(s, ops))
    decreases |ops|
  {
    hide Sound, Small, LoadsWithin, Do, Stuck, Room;
    if ops != [] {
      assert ops[0] in ops;
      RoomKept(h, f, |ops|);
      StepSmall(s, ops[0], h, f);
      forall op | op in ops[1..]
        ensures LoadsWithin(op, h + 1, f + 1)
      {
        LoadsMore(op, h, f);
      }
      assert h + 1 + |ops[1..]| == h + |ops| && f + 1 + |ops[1..]| == f + |ops|;
      RunStaysOnLine(Do(s, ops[0]), ops[1..], h + 1, f + 1);
    }
  }

  lemma LoadsMore(op: Op, h: nat, f: nat)
    requires LoadsWithin(op, h, f)
    ensures LoadsWithin(op, h + 1, f + 1)
  {
  }

  lemma LoadedIsSound(s: Session, t: string, h: nat, f: nat)
    requires ParseFen(t).Ok? && Within(ParseFen(t).value, h, f)
    ensures Sound(Load(s, t)) && Small(Load(s, t), h, f)
  {
    var l := Load(s, t);
    assert Texts(l) == [FenText(l.pos)];
    assert SmallText(FenText(l.pos), h, f);
  }

  /** The same from any accepted text. */
  lemma RunsFromLoad(s: Session, t: string, ops: seq<Op>, h: nat, f: nat)
    requires ParseFen(t).Ok? && Within(ParseFen(t).value, h, f) && Room(h + |ops|, f + |ops|)
    requires forall op :: op in ops ==> LoadsWithin(op, h, f)
    ensures AlwaysSound(Load(s, t), ops)
  {
    LoadedIsSound(s, t, h, f);
    RunStaysOnLine(Load(s, t), ops, h, f);
  }

  /** And from any accepted text a run stays on one chain throughout exactly when it is never stuck. */
  lemma LoadedRunsExactly(s: Session, t: string, ops: seq<Op>)
    requires ParseFen(t).Ok?
    ensures AlwaysSound(Load(s, t), ops) <==> NeverStuck(Load(s, t), ops)
  {
    var p := ParseFen(t).value;
    LoadedIsSound(s, t, p.halfmove, p.fullmove);
    RunOnLineExactly(Load(s, t), ops);
  }
}
