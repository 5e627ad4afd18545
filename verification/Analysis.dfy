/** The analysis coordinator (acs/analysis_service.py) as interleaved thread steps.
    Each `with self._state_lock` block is one step; the engine lock is held across steps. */
module Analysis {
  import opened Base

  type Thread = nat
  type Fen = string
  type Engine = nat

  /** What `analyze` hands back. */
  datatype Answer = Answer(fen: Fen, generation: nat, stale: bool, lines: seq<string>, failed: bool)

  /** The constructor's rule: a stale or failed answer carries no lines. */
  predicate WellFormed(a: Answer) {
    a.lines != [] ==> !a.stale && !a.failed
  }

  // ----- state

  /** A provider call ends with its lines or with an exception. */
  datatype Outcome = Delivered(lines: seq<string>) | Raised

  datatype Stage =
    | Waiting            // for the engine lock
    | Locked             // holds it, about to look at `_closed`
    | Open               // saw the service open
    | Making             // inside the engine factory
    | Calling            // inside the provider's analyze
    | Judging(outcome: Outcome)   // lock released, about to check staleness

  datatype Local =
    | Idle
    | InAnalyze(fen: Fen, generation: nat, stage: Stage)
    | CloseWaiting       // set `_closed`, waits for the engine lock
    | CloseHolding       // holds it, about to take the engine
    | Shutting(engine: Engine)    // inside the provider's close

  /** The steps that take a generation, in order. */
  datatype Event = Began(thread: Thread, fen: Fen) | Invalidated(position: Option<Fen>) | Closed(closer: Thread)

  /** An answer with the thread that got it and how many generations had been taken when it was judged. */
  datatype Record = Record(thread: Thread, answer: Answer, at: nat)

  /** What came of an analysis in its provider: in the factory if that raised, else in the analyze call. */
  datatype Call = Call(thread: Thread, generation: nat, outcome: Outcome)

  datatype State = State(
    generation: nat,
    current: Option<Fen>,
    closed: bool,
    engine: Option<Engine>,
    lock: Option<Thread>,
    owns: bool,
    threads: map<Thread, Local>,
    // history, for the statements only
    events: seq<Event>,
    answers: seq<Record>,
    stored: nat,               // engines ever stored in `_engine`
    taken: bool,               // the closing thread has emptied `_engine`
    shutdowns: seq<Engine>,    // provider close calls, in order
    calls: seq<Call>           // what the provider gave, in order
  )

  function Of(s: State, t: Thread): Local {
    if t in s.threads then s.threads[t] else Idle
  }

  function With(s: State, t: Thread, l: Local): State {
    s.(threads := s.threads[t := l])
  }

  function Answered(s: State, t: Thread, a: Answer): State {
    With(s, t, Idle).(answers := s.answers + [Record(t, a, |s.events|)])
  }

  predicate Initial(s: State) {
    && s.generation == 0 && s.current.None? && !s.closed && s.engine.None? && s.lock.None?
    && s.threads == map[] && s.events == [] && s.answers == [] && s.stored == 0 && !s.taken && s.shutdowns == []
    && s.calls == []
  }

  // ----- steps

  datatype Action =
    | Begin(thread: Thread, fen: Fen)
    | Acquire(thread: Thread)
    | Look(thread: Thread)
    | Use(thread: Thread)
    | Make(thread: Thread, made: bool)
    | Return(thread: Thread, outcome: Outcome)
    | Judge(thread: Thread)
    | Invalidate(thread: Thread, position: Option<Fen>)
    | CloseBegin(thread: Thread)
    | Take(thread: Thread)
    | CloseReturn(thread: Thread)

  predicate Enabled(s: State, a: Action) {
    var l := Of(s, a.thread);
    match a
    case Begin(t, fen) => l == Idle
    case Acquire(t) => s.lock.None? && ((l.InAnalyze? && l.stage == Waiting) || l == CloseWaiting)
    case Look(t) => l.InAnalyze? && l.stage == Locked
    case Use(t) => l.InAnalyze? && l.stage == Open
    case Make(t, made) => l.InAnalyze? && l.stage == Making
    case Return(t, outcome) => l.InAnalyze? && l.stage == Calling
    case Judge(t) => l.InAnalyze? && l.stage.Judging?
    case Invalidate(t, position) => l == Idle
    case CloseBegin(t) => l == Idle
    case Take(t) => l == CloseHolding
    case CloseReturn(t) => l.Shutting?
  }

  /** `_is_stale`. */
  predicate IsStale(s: State, generation: nat, fen: Fen) {
    generation != s.generation || Some(fen) != s.current
  }

  function Do(s: State, a: Action): State
    requires Enabled(s, a)
  {
    var l := Of(s, a.thread);
    match a
    case Begin(t, fen) =>
      if s.closed then Answered(s, t, Answer(fen, s.generation, false, [], true))
      else With(s, t, InAnalyze(fen, s.generation + 1, Waiting))
           .(generation := s.generation + 1, current := Some(fen), events := s.events + [Began(t, fen)])
    case Acquire(t) =>
      With(s, t, if l == CloseWaiting then CloseHolding else l.(stage := Locked)).(lock := Some(t))
    case Look(t) =>
      if s.closed then Answered(s, t, Answer(l.fen, l.generation, true, [], true)).(lock := None)
      else With(s, t, l.(stage := Open))
    case Use(t) =>
      With(s, t, l.(stage := if s.engine.None? then Making else Calling))
    case Make(t, made) =>
      if made then With(s, t, l.(stage := Calling)).(engine := Some(s.stored), stored := s.stored + 1)
      else With(s, t, l.(stage := Judging(Raised))).(lock := None, calls := s.calls + [Call(t, l.generation, Raised)])
    case Return(t, outcome) =>
      With(s, t, l.(stage := Judging(outcome))).(lock := None, calls := s.calls + [Call(t, l.generation, outcome)])
    case Judge(t) =>
      if IsStale(s, l.generation, l.fen) then Answered(s, t, Answer(l.fen, l.generation, true, [], false))
      else if l.stage.outcome.Raised? then Answered(s, t, Answer(l.fen, l.generation, false, [], true))
      else Answered(s, t, Answer(l.fen, l.generation, false, l.stage.outcome.lines, false))
    case Invalidate(t, position) =>
      s.(generation := s.generation + 1, current := position, events := s.events + [Invalidated(position)])
    case CloseBegin(t) =>
      if s.closed then s
      else With(s, t, CloseWaiting)
           .(closed := true, generation := s.generation + 1, current := None, events := s.events + [Closed(t)])
    case Take(t) =>
      var emptied := s.(engine := None, taken := true);
      if s.owns && s.engine.Some? then
        With(emptied, t, Shutting(s.engine.value)).(shutdowns := s.shutdowns + [s.engine.value])
      else With(emptied, t, Idle).(lock := None)
    case CloseReturn(t) =>
      With(s, t, Idle).(lock := None)
  }

  /** The state after a schedule, None when some action is not enabled where it is taken. */
  function Run(s: State, schedule: seq<Action>): Option<State>
    decreases |schedule|
  {
    if schedule == [] then Some(s)
    else if Enabled(s, schedule[0]) then Run(Do(s, schedule[0]), schedule[1..])
    else None
  }

  // ----- the invariant

  predicate HoldsLock(l: Local) {
    (l.InAnalyze? && l.stage != Waiting && !l.stage.Judging?) || l == CloseHolding || l.Shutting?
  }

  /** Inside a provider: its factory, its analyze or its close. */
  predicate InProvider(l: Local) {
    (l.InAnalyze? && (l.stage == Making || l.stage == Calling)) || l.Shutting?
  }

  predicate PastLook(l: Local) {
    l.InAnalyze? && (l.stage == Open || l.stage == Making || l.stage == Calling)
  }

  predicate IsClosing(l: Local) {
    l == CloseWaiting || l == CloseHolding || l.Shutting?
  }

  function PositionOf(e: Event): Option<Fen> {
    match e
    case Began(t, fen) => Some(fen)
    case Invalidated(position) => position
    case Closed(t) => None
  }

  /** Generations count the events, and the current position is the last event's. */
  predicate Counted(s: State) {
    && s.generation == |s.events|
    && s.current == (if s.events == [] then None else PositionOf(s.events[|s.events| - 1]))
  }

  /** A running analysis carries the generation of its own begin event. */
  predicate OwnGeneration(s: State, t: Thread) {
    var l := Of(s, t);
    l.InAnalyze? ==> 1 <= l.generation <= |s.events| && s.events[l.generation - 1] == Began(t, l.fen)
  }

  predicate LockOwned(s: State, t: Thread) {
    s.lock == Some(t) <==> HoldsLock(Of(s, t))
  }

  /** Where a thread may be, given whether the engine is stored and whether it has been taken for shutdown. */
  predicate EngineFits(s: State, t: Thread) {
    var l := Of(s, t);
    && (PastLook(l) ==> !s.taken)
    && (l.InAnalyze? && l.stage == Making ==> s.engine.None?)
    && (l.InAnalyze? && l.stage == Calling ==> s.engine.Some?)
    && (IsClosing(l) ==> s.closed && |s.events| > 0 && Closed(t) in s.events)
    && (l == CloseWaiting || l == CloseHolding ==> !s.taken)
    && (l.Shutting? ==> s.taken)
    && (Closed(t) in s.events && !s.taken ==> l == CloseWaiting || l == CloseHolding)
  }

  /** One engine at most is ever stored, and one provider close at most is ever called. */
  predicate EngineCounted(s: State) {
    && (s.taken ==> s.closed && s.engine.None?)
    && s.stored <= 1
    && (s.engine.Some? ==> s.stored == 1 && s.engine.value == 0)
    && (s.engine.None? && !s.taken ==> s.stored == 0)
    && (s.shutdowns == [] || (s.shutdowns == [0] && s.taken && s.owns && s.stored == 1))
    && (s.taken && s.owns && s.stored == 1 ==> s.shutdowns == [0])
  }

  /** The service is closed by exactly one event, if at all. */
  ghost predicate ClosedOnce(s: State) {
    && (s.closed <==> exists t :: Closed(t) in s.events)
    && (forall t, u :: Closed(t) in s.events && Closed(u) in s.events ==> t == u)
  }

  /** An answer with lines was judged while its own begin was still the last event. */
  predicate AnswerFresh(s: State, r: Record) {
    && WellFormed(r.answer) && r.at <= |s.events|
    && (r.answer.lines != [] ==>
        1 <= r.at && r.answer.generation == r.at && s.events[r.at - 1] == Began(r.thread, r.answer.fen))
  }

  ghost predicate Inv(s: State) {
    && Counted(s) && EngineCounted(s) && ClosedOnce(s)
    && (forall t :: OwnGeneration(s, t))
    && (forall t :: LockOwned(s, t))
    && (forall t :: EngineFits(s, t))
    && (forall i :: 0 <= i < |s.answers| ==> AnswerFresh(s, s.answers[i]))
  }

  lemma InitialInv(s: State)
    requires Initial(s)
    ensures Inv(s)
  {
  }

  lemma StepCounted(s: State, a: Action)
    requires Counted(s) && Enabled(s, a)
    ensures Counted(Do(s, a))
  {
    match a
    case Begin(u, fen) =>
    case Acquire(u) =>
    case Look(u) =>
    case Use(u) =>
    case Make(u, made) =>
    case Return(u, outcome) =>
    case Judge(u) =>
    case Invalidate(u, position) =>
    case CloseBegin(u) =>
    case Take(u) =>
    case CloseReturn(u) =>
  }

  /** Events are only ever added at the end. */
  lemma StepExtends(s: State, a: Action)
    requires Enabled(s, a)
    ensures s.events <= Do(s, a).events && s.answers <= Do(s, a).answers
  {
    match a
    case Begin(u, fen) =>
    case Look(u) =>
    case Judge(u) =>
    case _ =>
  }

  /** A step changes the local state of its own thread only. */
  lemma StepOthers(s: State, a: Action, t: Thread)
    requires Enabled(s, a) && t != a.thread
    ensures Of(Do(s, a), t) == Of(s, t)
  {
  }

  /** A step starts an analysis with a new generation, or leaves its thread's generation as it was. */
  lemma OwnStart(s: State, a: Action)
    requires Enabled(s, a) && Of(Do(s, a), a.thread).InAnalyze?
    ensures var l, d := Of(s, a.thread), Of(Do(s, a), a.thread);
      if a.Begin? then !s.closed && d.generation == s.generation + 1 && d.fen == a.fen
      else l.InAnalyze? && d.generation == l.generation && d.fen == l.fen
  {
  }

  lemma StepOwnGeneration(s: State, a: Action)
    requires Counted(s) && OwnGeneration(s, a.thread) && Enabled(s, a)
    ensures OwnGeneration(Do(s, a), a.thread)
  {
    if Of(Do(s, a), a.thread).InAnalyze? {
      OwnStart(s, a);
      StepExtends(s, a);
      if !a.Begin? {
        hide Do;
      }
    }
  }

  lemma StepGeneration(s: State, a: Action, t: Thread)
    requires Counted(s) && OwnGeneration(s, t) && Enabled(s, a)
    ensures OwnGeneration(Do(s, a), t)
  {
    StepExtends(s, a);
    if t == a.thread {
      StepOwnGeneration(s, a);
    } else {
      StepOthers(s, a, t);
      hide Do;
    }
  }

  lemma OwnLock(s: State, a: Action)
    requires LockOwned(s, a.thread) && Enabled(s, a)
    ensures LockOwned(Do(s, a), a.thread)
    ensures s.lock != Do(s, a).lock ==> s.lock in {None, Some(a.thread)} && Do(s, a).lock in {None, Some(a.thread)}
  {
    match a
    case Begin(u, fen) =>
    case Acquire(u) =>
    case Look(u) =>
    case Use(u) =>
    case Make(u, made) =>
    case Return(u, outcome) =>
    case Judge(u) =>
    case Invalidate(u, position) =>
    case CloseBegin(u) =>
    case Take(u) =>
    case CloseReturn(u) =>
  }

  lemma StepLock(s: State, a: Action, t: Thread)
    requires LockOwned(s, t) && LockOwned(s, a.thread) && Enabled(s, a)
    ensures LockOwned(Do(s, a), t)
  {
    OwnLock(s, a);
    if t != a.thread {
      StepOthers(s, a, t);
    }
    hide Do, Enabled, HoldsLock;
  }

  lemma StepEngineCounted(s: State, a: Action)
    requires EngineCounted(s) && EngineFits(s, a.thread) && Enabled(s, a)
    ensures EngineCounted(Do(s, a))
  {
    match a
    case Begin(u, fen) =>
    case Acquire(u) =>
    case Look(u) =>
    case Use(u) =>
    case Make(u, made) =>
    case Return(u, outcome) =>
    case Judge(u) =>
    case Invalidate(u, position) =>
    case CloseBegin(u) =>
    case Take(u) =>
    case CloseReturn(u) =>
  }

  lemma StepClosedOnce(s: State, a: Action)
    requires ClosedOnce(s) && Enabled(s, a)
    ensures ClosedOnce(Do(s, a))
  {
    var d := Do(s, a);
    forall t
      ensures Closed(t) in d.events <==> Closed(t) in s.events || (a == CloseBegin(t) && !s.closed)
    {
      if a == CloseBegin(t) && !s.closed {
        assert d.events[|s.events|] == Closed(t);
      }
    }
  }

  /** Only the thread that holds the engine lock takes the engine. */
  lemma TakeIsAlone(s: State, a: Action, t: Thread)
    requires Enabled(s, a) && a.Take? && t != a.thread && ClosedOnce(s)
    requires EngineFits(s, t) && EngineFits(s, a.thread) && LockOwned(s, t) && LockOwned(s, a.thread)
    ensures !PastLook(Of(s, t)) && Of(s, t) != CloseWaiting && Of(s, t) != CloseHolding
  {
    assert IsClosing(Of(s, a.thread));
    assert HoldsLock(Of(s, a.thread));
    hide Enabled;
  }

  /** What a step can do to the shared fields while another thread t is where it is. */
  lemma StepShared(s: State, a: Action, t: Thread)
    requires EngineCounted(s) && Enabled(s, a) && t != a.thread
    requires EngineFits(s, t) && EngineFits(s, a.thread) && LockOwned(s, t) && LockOwned(s, a.thread)
    requires ClosedOnce(s)
    ensures var d := Do(s, a);
      && (s.closed ==> d.closed) && (s.taken ==> d.taken)
      && (PastLook(Of(s, t)) ==> !d.taken && d.engine == s.engine)
      && (Of(s, t) == CloseWaiting || Of(s, t) == CloseHolding ==> !d.taken)
      && (Closed(t) in d.events ==> Closed(t) in s.events)
  {
    if a.Take? {
      TakeIsAlone(s, a, t);
    } else if a.Make? {
      assert HoldsLock(Of(s, a.thread));
      assert PastLook(Of(s, t)) ==> HoldsLock(Of(s, t));
    } else {
      KeepsEngine(s, a);
      hide Do;
    }
    hide ClosedOnce, LockOwned, HoldsLock, EngineCounted;
  }

  lemma KeepsEngine(s: State, a: Action)
    requires Enabled(s, a) && !a.Take? && !a.Make?
    ensures var d := Do(s, a);
      && (s.closed ==> d.closed) && s.taken == d.taken && d.engine == s.engine
      && forall t :: t != a.thread && Closed(t) in d.events ==> Closed(t) in s.events
  {
  }

  /** The steps of `close`. */
  predicate Closes(a: Action) {
    a.CloseBegin? || a.Take? || a.CloseReturn?
  }

  lemma ClosingFits(s: State, a: Action)
    requires EngineCounted(s) && ClosedOnce(s) && EngineFits(s, a.thread) && Enabled(s, a) && Closes(a)
    ensures EngineFits(Do(s, a), a.thread)
  {
    match a
    case CloseBegin(u) =>
      if !s.closed {
        assert Do(s, a).events[|s.events|] == Closed(u);
      }
    case Take(u) =>
    case CloseReturn(u) =>
  }

  /** The steps of `analyze` under the engine lock. */
  predicate Works(a: Action) {
    a.Look? || a.Use? || a.Make? || a.Return?
  }

  lemma WorkingFits(s: State, a: Action)
    requires EngineCounted(s) && EngineFits(s, a.thread) && Enabled(s, a) && Works(a)
    ensures EngineFits(Do(s, a), a.thread)
  {
    match a
    case Look(u) =>
    case Use(u) =>
    case Make(u, made) =>
    case Return(u, outcome) =>
  }

  lemma RunningFits(s: State, a: Action)
    requires EngineCounted(s) && EngineFits(s, a.thread) && Enabled(s, a) && !Closes(a) && !Works(a)
    requires s.closed ==> !a.Begin?
    ensures EngineFits(Do(s, a), a.thread)
  {
    match a
    case Begin(u, fen) =>
    case Acquire(u) =>
    case Judge(u) =>
    case Invalidate(u, position) =>
  }

  lemma RefusedFits(s: State, a: Action)
    requires EngineFits(s, a.thread) && Enabled(s, a) && a.Begin? && s.closed
    ensures EngineFits(Do(s, a), a.thread)
  {
  }

  lemma StepOwnFits(s: State, a: Action)
    requires EngineCounted(s) && ClosedOnce(s) && EngineFits(s, a.thread) && Enabled(s, a)
    ensures EngineFits(Do(s, a), a.thread)
  {
    hide Do, Enabled, EngineFits, EngineCounted, ClosedOnce;
    if Closes(a) {
      ClosingFits(s, a);
    } else if a.Begin? && s.closed {
      RefusedFits(s, a);
    } else if Works(a) {
      WorkingFits(s, a);
    } else {
      RunningFits(s, a);
    }
  }

  lemma StepEngineFits(s: State, a: Action, t: Thread)
    requires EngineCounted(s) && ClosedOnce(s) && Enabled(s, a)
    requires EngineFits(s, t) && EngineFits(s, a.thread) && LockOwned(s, t) && LockOwned(s, a.thread)
    ensures EngineFits(Do(s, a), t)
  {
    if t == a.thread {
      StepOwnFits(s, a);
    } else {
      StepOthers(s, a, t);
      StepShared(s, a, t);
      StepExtends(s, a);
      hide Do;
    }
  }

  lemma StepAnswers(s: State, a: Action)
    requires Counted(s) && Enabled(s, a) && OwnGeneration(s, a.thread)
    requires forall i :: 0 <= i < |s.answers| ==> AnswerFresh(s, s.answers[i])
    ensures forall i :: 0 <= i < |Do(s, a).answers| ==> AnswerFresh(Do(s, a), Do(s, a).answers[i])
  {
    var d := Do(s, a);
    StepExtends(s, a);
    forall i | 0 <= i < |d.answers|
      ensures AnswerFresh(d, d.answers[i])
    {
      if i < |s.answers| {
        assert AnswerFresh(s, s.answers[i]);
      }
    }
  }

  /** Every step of every thread keeps the invariant. */
  lemma StepInv(s: State, a: Action)
    requires Inv(s) && Enabled(s, a)
    ensures Inv(Do(s, a))
  {
    StepCounted(s, a);
    StepEngineCounted(s, a);
    StepClosedOnce(s, a);
    StepAnswers(s, a);
    forall t
      ensures OwnGeneration(Do(s, a), t) && LockOwned(Do(s, a), t) && EngineFits(Do(s, a), t)
    {
      StepGeneration(s, a, t);
      StepLock(s, a, t);
      StepEngineFits(s, a, t);
    }
  }

  lemma {:induction false} RunInv(s: State, schedule: seq<Action>)
    requires Inv(s) && Run(s, schedule).Some?
    ensures Inv(Run(s, schedule).value)
    decreases |schedule|
  {
    if schedule != [] {
      StepInv(s, schedule[0]);
      RunInv(Do(s, schedule[0]), schedule[1..]);
    }
  }

  // ----- what every schedule guarantees

  /** The state some schedule reaches from a fresh service. */
  ghost predicate Reachable(s: State) {
    exists s0, schedule :: Initial(s0) && Run(s0, schedule) == Some(s)
  }

  lemma ReachableInv(s: State)
    requires Reachable(s)
    ensures Inv(s)
  {
    var s0, schedule :| Initial(s0) && Run(s0, schedule) == Some(s);
    InitialInv(s0);
    RunInv(s0, schedule);
  }

  /** An answer with lines was given while its own begin was the last generation taken: no invalidate, no newer
      analyze and no close came between its begin and its staleness check. */
  lemma NoStaleLines(s: State, i: nat)
    requires Reachable(s) && i < |s.answers| && s.answers[i].answer.lines != []
    ensures var r := s.answers[i];
      && 1 <= r.at <= |s.events| && r.answer.generation == r.at && s.events[r.at - 1] == Began(r.thread, r.answer.fen)
      && !r.answer.stale && !r.answer.failed
  {
    ReachableInv(s);
  }

  /** At the check, stale means exactly that a later event took a generation; comparing positions adds nothing. */
  lemma StaleExactly(s: State, t: Thread)
    requires Reachable(s) && Of(s, t).InAnalyze?
    ensures IsStale(s, Of(s, t).generation, Of(s, t).fen) <==> Of(s, t).generation < |s.events|
  {
    ReachableInv(s);
    assert OwnGeneration(s, t);
  }

  // ----- every outcome reaches its caller

  /** Which call an analysis has made: none before its provider has answered, then the one whose outcome it judges. */
  ghost predicate CallMade(s: State, t: Thread) {
    var l := Of(s, t);
    l.InAnalyze? ==>
      if l.stage.Judging? then Call(t, l.generation, l.stage.outcome) in s.calls
      else forall c :: c in s.calls ==> c.generation != l.generation
  }

  /** Calls belong to the analyses that began with their generations, one each. */
  predicate CallsBegan(s: State) {
    && (forall i :: 0 <= i < |s.calls| ==>
          1 <= s.calls[i].generation <= |s.events| && s.events[s.calls[i].generation - 1].Began?
          && s.events[s.calls[i].generation - 1].thread == s.calls[i].thread)
    && (forall i, j :: 0 <= i < j < |s.calls| ==> s.calls[i].generation != s.calls[j].generation)
  }

  /** No analysis begins once the service is closed. */
  predicate ClosedLast(s: State) {
    s.closed ==> s.events != [] && !s.events[|s.events| - 1].Began?
  }

  /** An answer belongs to an analysis that is over, or to one that was refused at once. */
  predicate AnswerOver(s: State, r: Record) {
    var g := r.answer.generation;
    && 1 <= g <= r.at <= |s.events|
    && (s.events[g - 1].Began? ==>
          s.events[g - 1] == Began(r.thread, r.answer.fen)
          && !(Of(s, r.thread).InAnalyze? && Of(s, r.thread).generation == g))
  }

  /** The answer to an analysis whose provider gave `outcome`: stale if a later event took a generation, and then empty;
      else failed if the provider raised, else with exactly the lines delivered. */
  predicate Reports(r: Record, outcome: Outcome) {
    var a := r.answer;
    && (a.stale <==> a.generation < r.at)
    && (a.failed <==> !a.stale && outcome.Raised?)
    && a.lines == if a.stale || outcome.Raised? then [] else outcome.lines
  }

  /** An answer reports the call of its generation, or there was none because the service had been closed. */
  ghost predicate AnswerTells(s: State, r: Record) {
    && r.at <= |s.events|
    && (forall c :: c in s.calls && c.generation == r.answer.generation ==>
        c.thread == r.thread && Reports(r, c.outcome))
    && ((forall c :: c in s.calls ==> c.generation != r.answer.generation) ==>
          r.answer.failed && r.answer.lines == [] && exists t :: Closed(t) in s.events[..r.at])
  }

  ghost predicate Told(s: State) {
    && CallsBegan(s) && ClosedLast(s)
    && (forall t :: CallMade(s, t))
    && (forall r :: r in s.answers ==> AnswerOver(s, r) && AnswerTells(s, r))
  }

  /** A step makes at most one call, for its own running analysis. */
  lemma StepCalls(s: State, a: Action)
    requires Enabled(s, a)
    ensures var l, d := Of(s, a.thread), Do(s, a);
      if (a.Make? && !a.made) || a.Return?
      then d.calls == s.calls + [Call(a.thread, l.generation, if a.Return? then a.outcome else Raised)]
           && Of(d, a.thread) == l.(stage := Judging(if a.Return? then a.outcome else Raised))
           && !l.stage.Judging? && d.answers == s.answers && d.events == s.events
      else d.calls == s.calls
  {
  }

  lemma StepCallsBegan(s: State, a: Action)
    requires Inv(s) && Told(s) && Enabled(s, a)
    ensures CallsBegan(Do(s, a))
  {
    StepCalls(s, a);
    StepExtends(s, a);
    assert OwnGeneration(s, a.thread) && CallMade(s, a.thread);
    hide Do, Enabled;
  }

  lemma StepClosedLast(s: State, a: Action)
    requires ClosedLast(s) && Enabled(s, a)
    ensures ClosedLast(Do(s, a))
  {
    match a
    case Begin(u, fen) =>
    case Invalidate(u, position) =>
    case CloseBegin(u) =>
    case _ =>
  }

  /** Two running analyses never share a generation. */
  lemma GenerationsDiffer(s: State, t: Thread, u: Thread)
    requires Inv(s) && t != u && Of(s, t).InAnalyze? && Of(s, u).InAnalyze?
    ensures Of(s, t).generation != Of(s, u).generation
  {
    assert OwnGeneration(s, t) && OwnGeneration(s, u);
  }

  /** Where a thread that is analysing after its own step came from. */
  lemma OwnStage(s: State, a: Action)
    requires Enabled(s, a) && Of(Do(s, a), a.thread).InAnalyze?
    ensures var l, d := Of(s, a.thread), Of(Do(s, a), a.thread);
      || (a.Begin? && !s.closed && d.generation == s.generation + 1 && !d.stage.Judging?)
      || (a.Make? && !a.made) || a.Return?
      || (l.InAnalyze? && d.generation == l.generation && d.stage.Judging? == l.stage.Judging?
          && (d.stage.Judging? ==> d.stage == l.stage))
  {
  }

  lemma StepCallMade(s: State, a: Action, t: Thread)
    requires Inv(s) && Told(s) && Enabled(s, a)
    ensures CallMade(Do(s, a), t)
  {
    StepCalls(s, a);
    assert CallMade(s, t) && OwnGeneration(s, a.thread);
    if t == a.thread {
      if Of(Do(s, a), t).InAnalyze? {
        OwnStage(s, a);
      }
    } else {
      StepOthers(s, a, t);
      if Of(s, t).InAnalyze? && Of(s, a.thread).InAnalyze? {
        GenerationsDiffer(s, t, a.thread);
      }
    }
    hide Do, IsStale;
  }

  /** An answer already given stays what it was: the call of its generation, if any, was made before. */
  lemma OldAnswer(s: State, a: Action, r: Record)
    requires Inv(s) && Told(s) && Enabled(s, a) && r in s.answers
    ensures AnswerOver(Do(s, a), r) && AnswerTells(Do(s, a), r)
  {
    StepCalls(s, a);
    StepExtends(s, a);
    assert AnswerOver(s, r) && AnswerTells(s, r) && OwnGeneration(s, a.thread);
    if a.thread != r.thread {
      StepOthers(s, a, r.thread);
    } else if Of(Do(s, a), a.thread).InAnalyze? {
      OwnStart(s, a);
    }
    hide Do, Enabled, Reports;
    assert Do(s, a).events[..r.at] == s.events[..r.at];
  }

  lemma RefusalTold(s: State, a: Action, r: Record)
    requires Inv(s) && Told(s) && Enabled(s, a) && a.Begin?
    requires r in Do(s, a).answers && r !in s.answers
    ensures AnswerOver(Do(s, a), r) && AnswerTells(Do(s, a), r)
  {
    assert s.closed && r == Record(a.thread, Answer(a.fen, s.generation, false, [], true), |s.events|);
    assert Do(s, a).calls == s.calls && Do(s, a).events == s.events;
    assert s.events[..|s.events|] == s.events;
    hide Do;
  }

  lemma LateRefusalTold(s: State, a: Action, r: Record)
    requires Inv(s) && Told(s) && Enabled(s, a) && a.Look?
    requires r in Do(s, a).answers && r !in s.answers
    ensures AnswerOver(Do(s, a), r) && AnswerTells(Do(s, a), r)
  {
    var l := Of(s, a.thread);
    assert s.closed && r == Record(a.thread, Answer(l.fen, l.generation, true, [], true), |s.events|);
    assert Do(s, a).calls == s.calls && Do(s, a).events == s.events && Of(Do(s, a), a.thread) == Idle;
    assert OwnGeneration(s, a.thread) && CallMade(s, a.thread);
    assert s.events[..|s.events|] == s.events;
    hide Do;
  }

  lemma VerdictTold(s: State, a: Action, r: Record)
    requires Inv(s) && Told(s) && Enabled(s, a) && a.Judge?
    requires r in Do(s, a).answers && r !in s.answers
    ensures AnswerOver(Do(s, a), r) && AnswerTells(Do(s, a), r)
  {
    var l := Of(s, a.thread);
    assert OwnGeneration(s, a.thread) && CallMade(s, a.thread);
    assert Do(s, a).calls == s.calls && Do(s, a).events == s.events && Of(Do(s, a), a.thread) == Idle;
    assert Reports(r, l.stage.outcome) && r.thread == a.thread && r.at == |s.events|;
    assert r.answer.generation == l.generation && r.answer.fen == l.fen;
    hide Do, Reports;
  }

  /** The answer a step gives, if it gives one. */
  lemma NewAnswer(s: State, a: Action, r: Record)
    requires Inv(s) && Told(s) && Enabled(s, a) && r in Do(s, a).answers && r !in s.answers
    ensures AnswerOver(Do(s, a), r) && AnswerTells(Do(s, a), r)
  {
    hide Inv, Told, AnswerOver, AnswerTells;
    match a
    case Begin(u, fen) => RefusalTold(s, a, r);
    case Look(u) => LateRefusalTold(s, a, r);
    case Judge(u) => VerdictTold(s, a, r);
    case _ =>
  }

  lemma StepTold(s: State, a: Action)
    requires Inv(s) && Told(s) && Enabled(s, a)
    ensures Told(Do(s, a))
  {
    hide Inv, Do, Enabled, CallMade, AnswerOver, AnswerTells, CallsBegan, ClosedLast;
    StepCallsBegan(s, a);
    StepClosedLast(s, a);
    forall t
      ensures CallMade(Do(s, a), t)
    {
      StepCallMade(s, a, t);
    }
    forall r | r in Do(s, a).answers
      ensures AnswerOver(Do(s, a), r) && AnswerTells(Do(s, a), r)
    {
      if r in s.answers {
        OldAnswer(s, a, r);
      } else {
        NewAnswer(s, a, r);
      }
    }
  }

  lemma {:induction false} RunTold(s: State, schedule: seq<Action>)
    requires Inv(s) && Told(s) && Run(s, schedule).Some?
    ensures Told(Run(s, schedule).value)
    decreases |schedule|
  {
    hide Inv, Told, Do, Enabled;
    if schedule != [] {
      StepInv(s, schedule[0]);
      StepTold(s, schedule[0]);
      RunTold(Do(s, schedule[0]), schedule[1..]);
    }
  }

  lemma ReachableTold(s: State)
    requires Reachable(s)
    ensures Told(s)
  {
    var s0, schedule :| Initial(s0) && Run(s0, schedule) == Some(s);
    InitialInv(s0);
    assert Told(s0);
    RunTold(s0, schedule);
  }

  /** Whatever the schedule, the answer to an analysis its provider answered is stale exactly when a later event took a
      generation, and otherwise has exactly the lines delivered, or is failed if the call raised. An analysis without
      such a call was refused after a close. */
  lemma AnswersReport(s: State, r: Record)
    requires Reachable(s) && r in s.answers
    ensures 1 <= r.answer.generation <= r.at <= |s.events|
    ensures forall c :: c in s.calls && c.generation == r.answer.generation ==>
        && c.thread == r.thread && s.events[r.answer.generation - 1] == Began(r.thread, r.answer.fen)
        && Reports(r, c.outcome)
    ensures (forall c :: c in s.calls ==> c.generation != r.answer.generation) ==>
        r.answer.failed && r.answer.lines == [] && exists t :: Closed(t) in s.events[..r.at]
  {
    ReachableTold(s);
    assert AnswerOver(s, r) && AnswerTells(s, r);
    forall c | c in s.calls && c.generation == r.answer.generation
      ensures s.events[r.answer.generation - 1] == Began(r.thread, r.answer.fen)
    {
      assert CallsBegan(s);
    }
  }

  /** An analysis still the last to have begun when it judges gets the lines its provider delivered. */
  lemma UndisturbedAnalysis(s: State, t: Thread, lines: seq<string>)
    requires Reachable(s) && Of(s, t).InAnalyze? && Of(s, t).stage == Judging(Delivered(lines))
    requires Of(s, t).generation == |s.events|
    ensures Call(t, |s.events|, Delivered(lines)) in s.calls
    ensures Do(s, Judge(t)).answers ==
      s.answers + [Record(t, Answer(Of(s, t).fen, |s.events|, false, lines, false), |s.events|)]
  {
    ReachableTold(s);
    ReachableInv(s);
    assert CallMade(s, t) && OwnGeneration(s, t);
  }

  /** Provider calls never overlap: at most one thread is inside the factory, an analyze or the shutdown. */
  lemma ProviderCallsExclusive(s: State, t: Thread, u: Thread)
    requires Reachable(s) && InProvider(Of(s, t)) && InProvider(Of(s, u))
    ensures t == u
  {
    ReachableInv(s);
    assert LockOwned(s, t) && LockOwned(s, u);
  }

  /** At most one engine is stored in the service's life and at most one is closed; the closed one is the stored one,
      and only an owning service closes it. Once the closing thread has taken it, an owning service has closed it. */
  lemma EngineClosedAtMostOnce(s: State)
    requires Reachable(s)
    ensures s.stored <= 1 && |s.shutdowns| <= 1
    ensures s.shutdowns != [] ==> s.owns && s.shutdowns == [0] && s.stored == 1 && s.taken
    ensures s.taken && s.owns && s.stored == 1 ==> s.shutdowns == [0]
  {
    ReachableInv(s);
  }

  lemma TakenStays(s: State, a: Action)
    requires Enabled(s, a) && s.taken
    ensures Do(s, a).taken
  {
  }

  /** After the closing thread has taken the engine, no later schedule ever holds, makes or calls one again. */
  lemma {:induction false} NoResurrection(s: State, schedule: seq<Action>)
    requires Inv(s) && s.taken && Run(s, schedule).Some?
    ensures var d := Run(s, schedule).value;
      d.taken && d.engine.None? && d.stored == s.stored && forall t :: !PastLook(Of(d, t))
    decreases |schedule|
  {
    if schedule == [] {
      forall t
        ensures !PastLook(Of(s, t))
      {
        assert EngineFits(s, t);
      }
    } else {
      StepInv(s, schedule[0]);
      TakenStays(s, schedule[0]);
      StepStored(s, schedule[0]);
      NoResurrection(Do(s, schedule[0]), schedule[1..]);
    }
  }

  lemma StepStored(s: State, a: Action)
    requires Inv(s) && s.taken && Enabled(s, a)
    ensures Do(s, a).stored == s.stored
  {
    assert EngineFits(s, a.thread);
  }

  /** The service being closed, its engine is gone for good exactly when the thread that closed it is past taking it;
      in particular, when that thread's close has returned. */
  lemma CloseTakesEffect(s: State, t: Thread)
    requires Reachable(s) && Closed(t) in s.events
    ensures s.taken <==> Of(s, t) != CloseWaiting && Of(s, t) != CloseHolding
    ensures s.taken ==> s.engine.None? && forall u :: !PastLook(Of(s, u))
  {
    ReachableInv(s);
    assert EngineFits(s, t);
    forall u
      ensures s.taken ==> !PastLook(Of(s, u))
    {
      assert EngineFits(s, u);
    }
  }

  lemma {:induction false} RunConcat(s: State, first: seq<Action>, second: seq<Action>)
    requires Run(s, first).Some?
    ensures Run(s, first + second) == Run(Run(s, first).value, second)
    decreases |first|
  {
    if first == [] {
      assert first + second == second;
    } else {
      assert (first + second)[1..] == first[1..] + second;
      RunConcat(Do(s, first[0]), first[1..], second);
    }
  }

  lemma ReachableStep(s: State, a: Action)
    requires Reachable(s) && Enabled(s, a)
    ensures Reachable(Do(s, a))
  {
    var s0, schedule :| Initial(s0) && Run(s0, schedule) == Some(s);
    RunConcat(s0, schedule, [a]);
    assert Run(s, [a]) == Run(Do(s, a), []);
    assert Run(s0, schedule + [a]) == Some(Do(s, a));
  }

  /** An analyze that runs alone until it has seen the service open. */
  lemma OneOpen() returns (s: State)
    ensures Reachable(s) && !s.closed && s.engine.None? && s.owns && s.stored == 0
    ensures Of(s, 0).InAnalyze? && Of(s, 0).stage == Open && Of(s, 1) == Idle && Of(s, 2) == Idle
  {
    var s0 := State(0, None, false, None, None, true, map[], [], [], 0, false, [], []);
    assert Run(s0, []) == Some(s0);
    assert Reachable(s0);
    hide Reachable;
    s := s0;
    ReachableStep(s, Begin(0, "startpos"));
    s := Do(s, Begin(0, "startpos"));
    ReachableStep(s, Acquire(0));
    s := Do(s, Acquire(0));
    ReachableStep(s, Look(0));
    s := Do(s, Look(0));
  }

  /** An analyze that runs alone up to its provider call. */
  lemma OneCalling() returns (s: State)
    ensures Reachable(s) && !s.closed && s.engine.Some? && s.owns
    ensures Of(s, 0).InAnalyze? && Of(s, 0).stage == Calling && Of(s, 1) == Idle && Of(s, 2) == Idle
  {
    hide Reachable;
    s := OneOpen();
    ReachableStep(s, Use(0));
    s := Do(s, Use(0));
    ReachableStep(s, Make(0, true));
    s := Do(s, Make(0, true));
  }

  /** A second close, racing with the first, returns at once: the engine may then still be held and in use. */
  lemma SecondCloseReturnsEarly() returns (s: State, d: State)
    ensures Reachable(s) && Enabled(s, CloseBegin(2)) && d == Do(s, CloseBegin(2))
    ensures s.closed && Of(d, 2) == Idle && d.engine.Some? && Of(d, 0).InAnalyze? && Of(d, 0).stage == Calling
  {
    var calling := OneCalling();
    ReachableStep(calling, CloseBegin(1));
    s := Do(calling, CloseBegin(1));
    d := Do(s, CloseBegin(2));
  }

  /** No schedule gets stuck: while some thread is inside an operation, one such thread can take a step. */
  lemma NoDeadlock(s: State, t: Thread) returns (a: Action)
    requires Reachable(s) && Of(s, t) != Idle
    ensures Enabled(s, a) && Of(s, a.thread) != Idle
  {
    ReachableInv(s);
    if s.lock.Some? {
      assert LockOwned(s, s.lock.value);
      a := OwnStep(s.lock.value, Of(s, s.lock.value));
    } else {
      assert LockOwned(s, t);
      a := OwnStep(t, Of(s, t));
    }
  }

  /** The next step of a thread inside an operation. */
  function OwnStep(t: Thread, l: Local): Action
    requires l != Idle
  {
    match l
    case CloseWaiting => Acquire(t)
    case CloseHolding => Take(t)
    case Shutting(e) => CloseReturn(t)
    case InAnalyze(fen, generation, stage) =>
      match stage
      case Waiting => Acquire(t)
      case Locked => Look(t)
      case Open => Use(t)
      case Making => Make(t, true)
      case Calling => Return(t, Raised)
      case Judging(outcome) => Judge(t)
  }
}
