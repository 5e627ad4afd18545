/** The reading-progress store (acs/book_progress_store.py) between cooperating writers: two files, operations that
    may stop anywhere, and loss or damage of either file. */
module Progress {
  import opened Base

  const MAX_ENTRIES := 4096
  const MAX_GENERATION := 0x7FFF_FFFF_FFFF_FFFF

  type Book = string
  type Snapshot = string
  type Entries = map<Book, Snapshot>

  // ----- bytes and what they decode to

  datatype Payload = Payload(generation: nat, entries: Entries)

  /** File contents: JSON of a schema version in some spelling, or bytes that are not such JSON. */
  datatype Raw = Json(schema: nat, payload: Payload, spelling: nat) | Garbage(tag: nat)

  datatype Decoded = Good(payload: Payload, schema: nat) | Corrupt | Refused

  /** `_decode_payload_with_source_schema`; Refused stands for an unsupported schema or an exceeded limit. */
  function Decode(r: Raw): Decoded {
    match r
    case Garbage(_) => Corrupt
    case Json(schema, p, _) =>
      if schema != 1 && schema != 2 then Refused
      else if |p.entries| > MAX_ENTRIES then Refused
      else if schema == 1 then Good(Payload(0, p.entries), 1)
      else if p.generation > MAX_GENERATION then Corrupt
      else Good(p, 2)
  }

  /** `_canonical_json_bytes`: one spelling per payload. */
  function Encode(p: Payload): Raw {
    Json(2, p, 0)
  }

  lemma EncodeDecodes(p: Payload)
    requires |p.entries| <= MAX_ENTRIES && p.generation <= MAX_GENERATION
    ensures Decode(Encode(p)) == Good(p, 2)
  {
  }

  // ----- the two files and the operations

  datatype Files = Files(primary: Option<Raw>, backup: Option<Raw>)

  /** How an operation ends. Unknown: the primary was published but not confirmed; BackupUnknown: only the backup was.
      Stopped: it failed, or the process died, before. */
  datatype Code = Completed | Unknown | BackupUnknown | Stopped | Stale | CorruptStore | Limit | Nothing

  datatype Loaded = Ready(payload: Payload) | Not(code: Code)

  function CodeOf(d: Decoded): Code {
    if d.Refused? then Limit else CorruptStore
  }

  /** `_load_state_unlocked` for a mutation: a backup without a primary is not an empty store. */
  function Load(f: Files): Loaded {
    if f.primary.Some? then
      (if Decode(f.primary.value).Good? then Ready(Decode(f.primary.value).payload)
       else Not(CodeOf(Decode(f.primary.value))))
    else if f.backup.Some? then Not(CodeOf(Decode(f.backup.value)))
    else Ready(Payload(0, map[]))
  }

  /** The rolling-backup check: a backup that is newer than the primary, or differs at the same generation, is kept. */
  function BackupCheck(primary: Raw, backup: Option<Raw>): (problem: Option<Code>)
    ensures problem.Some? ==> problem.value in {Limit, CorruptStore, Stale}
  {
    if backup.None? then None
    else match Decode(backup.value)
      case Corrupt => None
      case Refused => Some(Limit)
      case Good(b, bs) =>
        var d := Decode(primary);
        if !d.Good? then Some(CorruptStore)
        else if b.generation > d.payload.generation
             || (b.generation == d.payload.generation && backup.value != primary && !(d.schema == 1 && bs == 1))
        then Some(Stale) else None
  }

  /** `_write_payload_unlocked`: it may stop before anything (0), with the backup published (1), with that
      unconfirmed (2), with the primary published but unconfirmed (3), or complete (4 and more). */
  function Write(f: Files, p: Payload, stop: nat): (Files, Code) {
    if f.primary.None? then
      if stop <= 2 then (f, Stopped)
      else (f.(primary := Some(Encode(p))), if stop == 3 then Unknown else Completed)
    else
      var check := BackupCheck(f.primary.value, f.backup);
      if check.Some? then (f, check.value)
      else if stop == 0 then (f, Stopped)
      else if stop <= 2 then (f.(backup := f.primary), if stop == 1 then Stopped else BackupUnknown)
      else (Files(Some(Encode(p)), f.primary), if stop == 3 then Unknown else Completed)
  }

  function Save(f: Files, key: Book, snapshot: Snapshot, stop: nat): (Files, Code) {
    var l := Load(f);
    if l.Not? then (f, l.code)
    else if key !in l.payload.entries && |l.payload.entries| >= MAX_ENTRIES then (f, Limit)
    else if l.payload.generation >= MAX_GENERATION then (f, Limit)
    else Write(f, Payload(l.payload.generation + 1, l.payload.entries[key := snapshot]), stop)
  }

  function Remove(f: Files, key: Book, stop: nat): (Files, Code) {
    var l := Load(f);
    if l.Not? then (f, l.code)
    else if key !in l.payload.entries then (f, Nothing)
    else if l.payload.generation >= MAX_GENERATION then (f, Limit)
    else Write(f, Payload(l.payload.generation + 1, l.payload.entries - {key}), stop)
  }

  /** `recover_from_backup` without revision arguments: a missing or corrupt primary is replaced by the backup's
      bytes. */
  function Recover(f: Files, stop: nat): (Files, Code) {
    if f.primary.Some? && Decode(f.primary.value).Good? then (f, Nothing)
    else if f.primary.Some? && Decode(f.primary.value).Refused? then (f, Limit)
    else if f.backup.None? then (f, if f.primary.None? then Nothing else Stopped)
    else if !Decode(f.backup.value).Good? then (f, CodeOf(Decode(f.backup.value)))
    else if stop == 0 then (f, Stopped)
    else (f.(primary := f.backup), if stop == 1 then Unknown else Completed)
  }

  datatype Op =
    | DoSave(key: Book, snapshot: Snapshot, stop: nat)
    | DoRemove(key: Book, stop: nat)
    | DoRecover(stop: nat)
    | LosePrimary
    | LoseBackup
    | SpoilPrimary(tag: nat)
    | SpoilBackup(tag: nat)

  function Do(f: Files, op: Op): (Files, Code) {
    match op
    case DoSave(key, snapshot, stop) => Save(f, key, snapshot, stop)
    case DoRemove(key, stop) => Remove(f, key, stop)
    case DoRecover(stop) => Recover(f, stop)
    case LosePrimary => (f.(primary := None), Nothing)
    case LoseBackup => (f.(backup := None), Nothing)
    case SpoilPrimary(tag) => (if f.primary.Some? then f.(primary := Some(Garbage(tag))) else f, Nothing)
    case SpoilBackup(tag) => (if f.backup.Some? then f.(backup := Some(Garbage(tag))) else f, Nothing)
  }

  function Run(f: Files, ops: seq<Op>): Files
    decreases |ops|
  {
    if ops == [] then f else Run(Do(f, ops[0]).0, ops[1..])
  }

  // ----- the order of the two files

  function Reading(r: Option<Raw>): Decoded {
    if r.Some? then Decode(r.value) else Corrupt
  }

  /** When both files decode, the backup is older, the very same bytes, or both are version 1. */
  predicate Ordered(f: Files) {
    Reading(f.primary).Good? && Reading(f.backup).Good? ==>
      || Reading(f.backup).payload.generation < Reading(f.primary).payload.generation
      || f.backup == f.primary
      || (Reading(f.backup).schema == 1 && Reading(f.primary).schema == 1)
  }

  /** Nothing on disk is beyond this version of the program. */
  predicate Supported(f: Files) {
    !Reading(f.primary).Refused? && !Reading(f.backup).Refused?
  }

  predicate Sound(f: Files) {
    Ordered(f) && Supported(f)
  }

  /** An empty store, or one left by schema version 1. */
  predicate Starting(f: Files) {
    || f == Files(None, None)
    || (Reading(f.primary).Good? && Reading(f.primary).schema == 1
        && (f.backup.None? || (Reading(f.backup).Good? && Reading(f.backup).schema == 1)))
  }

  lemma SavedSize(e: Entries, key: Book, snapshot: Snapshot)
    requires |e| <= MAX_ENTRIES && (key in e || |e| < MAX_ENTRIES)
    ensures |e[key := snapshot]| <= MAX_ENTRIES
  {
    if key in e {
      assert e[key := snapshot].Keys == e.Keys;
    } else {
      assert e[key := snapshot].Keys == e.Keys + {key};
    }
    assert |e[key := snapshot]| == |e[key := snapshot].Keys|;
  }

  lemma RemovedSize(e: Entries, key: Book)
    requires |e| <= MAX_ENTRIES
    ensures |e - {key}| <= MAX_ENTRIES
  {
    assert (e - {key}).Keys == e.Keys - {key};
    assert |(e - {key}).Keys| <= |e.Keys|;
  }

  /** A write of the next generation keeps the order, wherever it stops. */
  lemma WriteKeepsOrder(f: Files, p: Payload, stop: nat)
    requires Sound(f) && Load(f).Ready? && p.generation == Load(f).payload.generation + 1 <= MAX_GENERATION
    requires |p.entries| <= MAX_ENTRIES
    ensures Sound(Write(f, p, stop).0)
  {
    EncodeDecodes(p);
  }

  lemma SaveKeepsOrder(f: Files, key: Book, snapshot: Snapshot, stop: nat)
    requires Sound(f)
    ensures Sound(Save(f, key, snapshot, stop).0)
  {
    var l := Load(f);
    if l.Ready? {
      LoadedLimits(f);
    }
    hide Load, Write, Sound;
    if l.Ready? && (key in l.payload.entries || |l.payload.entries| < MAX_ENTRIES)
      && l.payload.generation < MAX_GENERATION {
      SavedSize(l.payload.entries, key, snapshot);
      WriteKeepsOrder(f, Payload(l.payload.generation + 1, l.payload.entries[key := snapshot]), stop);
    }
  }

  lemma RemoveKeepsOrder(f: Files, key: Book, stop: nat)
    requires Sound(f)
    ensures Sound(Remove(f, key, stop).0)
  {
    var l := Load(f);
    if l.Ready? {
      LoadedLimits(f);
    }
    hide Load, Write, Sound;
    if l.Ready? && key in l.payload.entries && l.payload.generation < MAX_GENERATION {
      RemovedSize(l.payload.entries, key);
      WriteKeepsOrder(f, Payload(l.payload.generation + 1, l.payload.entries - {key}), stop);
    }
  }

  lemma LoadedLimits(f: Files)
    requires Load(f).Ready?
    ensures |Load(f).payload.entries| <= MAX_ENTRIES && Load(f).payload.generation <= MAX_GENERATION
  {
  }

  lemma StepKeepsOrder(f: Files, op: Op)
    requires Sound(f)
    ensures Sound(Do(f, op).0)
  {
    match op
    case DoSave(key, snapshot, stop) => SaveKeepsOrder(f, key, snapshot, stop);
    case DoRemove(key, stop) => RemoveKeepsOrder(f, key, stop);
    case _ => hide Save, Remove;
  }

  /** In every run of saves, removes and recoveries stopping anywhere, with either file lost or damaged at any time,
      the two files stay in order. */
  lemma {:induction false} RunKeepsOrder(f: Files, ops: seq<Op>)
    requires Sound(f)
    ensures Sound(Run(f, ops))
    decreases |ops|
  {
    if ops != [] {
      StepKeepsOrder(f, ops[0]);
      RunKeepsOrder(Do(f, ops[0]).0, ops[1..]);
    }
  }

  /** So the "newer or divergent" refusal never fires, and no valid primary is ever blocked by its backup. */
  lemma NeverDivergent(f: Files, ops: seq<Op>)
    requires Starting(f)
    ensures var g := Run(f, ops); Reading(g.primary).Good? ==> BackupCheck(g.primary.value, g.backup).None?
  {
    RunKeepsOrder(f, ops);
  }

  /** A backup without a primary survives every save and remove, decodable or not. */
  lemma OrphanBackupKept(f: Files, op: Op)
    requires f.primary.None? && f.backup.Some? && (op.DoSave? || op.DoRemove?)
    ensures Do(f, op).0 == f && Do(f, op).1 != Completed
  {
  }

  // ----- the store as a map

  /** What the store holds: the primary's entries, or nothing for an empty store. */
  function Held(f: Files): Option<Entries> {
    if Load(f).Ready? then Some(Load(f).payload.entries) else None
  }

  /** The change a published operation makes. */
  function Change(e: Entries, op: Op): Entries {
    match op
    case DoSave(key, snapshot, _) => e[key := snapshot]
    case DoRemove(key, _) => e - {key}
    case _ => e
  }

  predicate Published(c: Code) {
    c == Completed || c == Unknown
  }

  /** Wherever a write stops, the primary is its old bytes or the complete new ones. */
  lemma WriteIsAtomic(f: Files, p: Payload, stop: nat)
    requires Load(f).Ready? && |p.entries| <= MAX_ENTRIES && p.generation <= MAX_GENERATION
    ensures var (g, c) := Write(f, p, stop);
      && Held(g) == (if Published(c) then Some(p.entries) else Held(f))
      && g.primary == (if Published(c) then Some(Encode(p)) else f.primary)
  {
    EncodeDecodes(p);
    hide Decode;
  }

  /** The files g after an operation that ended with c are as if it was applied at once or not at all. */
  predicate Atomic(f: Files, op: Op, g: Files, c: Code)
    requires Load(f).Ready?
  {
    && Held(g) == (if Published(c) then Some(Change(Held(f).value, op)) else Held(f))
    && g.primary == (if Published(c)
                     then Some(Encode(Payload(Load(f).payload.generation + 1, Change(Held(f).value, op))))
                     else f.primary)
  }

  lemma SaveIsAtomic(f: Files, key: Book, snapshot: Snapshot, stop: nat)
    requires Load(f).Ready?
    ensures var (g, c) := Save(f, key, snapshot, stop); Atomic(f, DoSave(key, snapshot, stop), g, c)
  {
    var p := Load(f).payload;
    LoadedLimits(f);
    hide Load, Write;
    if (key in p.entries || |p.entries| < MAX_ENTRIES) && p.generation < MAX_GENERATION {
      SavedSize(p.entries, key, snapshot);
      WriteIsAtomic(f, Payload(p.generation + 1, p.entries[key := snapshot]), stop);
    }
  }

  lemma RemoveIsAtomic(f: Files, key: Book, stop: nat)
    requires Load(f).Ready?
    ensures var (g, c) := Remove(f, key, stop); Atomic(f, DoRemove(key, stop), g, c)
  {
    var p := Load(f).payload;
    LoadedLimits(f);
    hide Load, Write;
    if p.generation < MAX_GENERATION {
      RemovedSize(p.entries, key);
      WriteIsAtomic(f, Payload(p.generation + 1, p.entries - {key}), stop);
    }
  }

  /** At every stopping point the primary is its old bytes or the complete new ones, an operation that published
      changed exactly its own book, and one that did not left every entry as it was. */
  lemma StepIsAtomic(f: Files, op: Op)
    requires Load(f).Ready? && (op.DoSave? || op.DoRemove?)
    ensures var (g, c) := Do(f, op); Atomic(f, op, g, c)
  {
    match op
    case DoSave(key, snapshot, stop) => SaveIsAtomic(f, key, snapshot, stop);
    case DoRemove(key, stop) => RemoveIsAtomic(f, key, stop);
  }

  /** The entries of every other book are untouched. */
  lemma OtherBooksKept(f: Files, op: Op, other: Book)
    requires Load(f).Ready? && (op.DoSave? || op.DoRemove?) && op.key != other
    ensures Held(Do(f, op).0).Some?
    ensures other in Held(Do(f, op).0).value <==> other in Held(f).value
    ensures other in Held(f).value ==> Held(Do(f, op).0).value[other] == Held(f).value[other]
  {
    StepIsAtomic(f, op);
  }

  /** A run of saves and removes is the fold of the changes of those that published. */
  function Folded(f: Files, ops: seq<Op>, e: Entries): Entries
    decreases |ops|
  {
    if ops == [] then e
    else
      var (g, c) := Do(f, ops[0]);
      Folded(g, ops[1..], if Published(c) then Change(e, ops[0]) else e)
  }

  lemma {:induction false} RunIsSequential(f: Files, ops: seq<Op>)
    requires Load(f).Ready? && forall op :: op in ops ==> op.DoSave? || op.DoRemove?
    ensures Held(Run(f, ops)) == Some(Folded(f, ops, Held(f).value))
    decreases |ops|
  {
    if ops != [] {
      assert ops[0] in ops;
      StepIsAtomic(f, ops[0]);
      RunIsSequential(Do(f, ops[0]).0, ops[1..]);
    }
  }

  // ----- what is asked for is done

  /** An operation that does not stop on the way. */
  predicate Unstopped(op: Op) {
    (op.DoSave? || op.DoRemove? ==> op.stop >= 4) && (op.DoRecover? ==> op.stop >= 2)
  }

  /** What the store has to offer: the entries and generation of a decodable primary, or of an empty store. */
  function Offered(f: Files): Option<Payload> {
    if Reading(f.primary).Good? then Some(Reading(f.primary).payload)
    else if f == Files(None, None) then Some(Payload(0, map[]))
    else None
  }

  /** When an operation can be done at all. */
  predicate Feasible(f: Files, op: Op) {
    match op
    case DoSave(key, _, _) =>
      && Offered(f).Some? && Offered(f).value.generation < MAX_GENERATION
      && |Offered(f).value.entries.Keys + {key}| <= MAX_ENTRIES
    case DoRemove(key, _) =>
      Offered(f).Some? && Offered(f).value.generation < MAX_GENERATION && key in Offered(f).value.entries
    case DoRecover(_) =>
      Reading(f.primary).Corrupt? && Reading(f.backup).Good?
    case _ => false
  }

  lemma RoomForKey(e: Entries, key: Book)
    requires |e| <= MAX_ENTRIES
    ensures |e.Keys + {key}| <= MAX_ENTRIES <==> key in e || |e| < MAX_ENTRIES
  {
    assert |e| == |e.Keys|;
    if key in e {
      assert e.Keys + {key} == e.Keys;
    } else {
      assert |e.Keys + {key}| == |e.Keys| + 1;
    }
  }

  /** Between cooperating writers an operation completes exactly when it is feasible and does not stop on the way. */
  lemma CompletesExactly(f: Files, op: Op)
    requires Sound(f)
    ensures Do(f, op).1 == Completed <==> Feasible(f, op) && Unstopped(op)
  {
    if Load(f).Ready? {
      LoadedLimits(f);
      if op.DoSave? {
        RoomForKey(Load(f).payload.entries, op.key);
      }
    }
    hide Encode;
  }

  /** So in every run from a starting store: nothing a stopped writer left behind ever stands in the way. */
  lemma RunsComplete(f: Files, ops: seq<Op>, op: Op)
    requires Starting(f)
    ensures var g := Run(f, ops); Do(g, op).1 == Completed <==> Feasible(g, op) && Unstopped(op)
  {
    RunKeepsOrder(f, ops);
    CompletesExactly(Run(f, ops), op);
  }

  // ----- losing the primary costs at most one update

  /** The files with the entries committed before the last published change. */
  datatype Tracked = Tracked(files: Files, previous: Entries)

  function Track(t: Tracked, op: Op): Tracked {
    var (g, c) := Do(t.files, op);
    Tracked(g, if Published(c) && Held(t.files).Some? && !op.DoRecover? then Held(t.files).value else t.previous)
  }

  /** With a valid primary, a decodable backup holds the current entries or those before the last change. */
  predicate OneBehind(t: Tracked) {
    Reading(t.files.primary).Good? && Reading(t.files.backup).Good? ==>
      || Reading(t.files.backup).payload.entries == Reading(t.files.primary).payload.entries
      || Reading(t.files.backup).payload.entries == t.previous
  }

  /** A save or remove leaves both files alone, or leaves the old primary's bytes as the backup. */
  lemma BackupAfter(f: Files, op: Op)
    requires op.DoSave? || op.DoRemove?
    ensures var (g, c) := Do(f, op);
      && (g == f || (g.backup == f.primary && (g.primary == f.primary || Published(c))))
      && (Published(c) ==> Load(f).Ready?)
  {
  }

  lemma StepOneBehind(t: Tracked, op: Op)
    requires Sound(t.files) && OneBehind(t)
    ensures OneBehind(Track(t, op))
  {
    if op.DoSave? || op.DoRemove? {
      BackupAfter(t.files, op);
      hide Do, Decode, Change, Sound;
    } else {
      hide Decode;
    }
  }

  function TrackAll(t: Tracked, ops: seq<Op>): Tracked
    decreases |ops|
  {
    if ops == [] then t else TrackAll(Track(t, ops[0]), ops[1..])
  }

  lemma {:induction false} RunOneBehind(t: Tracked, ops: seq<Op>)
    requires Sound(t.files) && OneBehind(t)
    ensures Sound(TrackAll(t, ops).files) && OneBehind(TrackAll(t, ops)) && TrackAll(t, ops).files == Run(t.files, ops)
    decreases |ops|
  {
    if ops != [] {
      StepKeepsOrder(t.files, ops[0]);
      StepOneBehind(t, ops[0]);
      RunOneBehind(Track(t, ops[0]), ops[1..]);
    }
  }

  /** After any run, if the primary is then lost or damaged and the backup decodes, recovery brings back the entries
      as they were or as they were before the last published change. */
  lemma RecoveryLosesAtMostOneUpdate(t: Tracked, ops: seq<Op>, damage: Op, stop: nat)
    requires Sound(t.files) && OneBehind(t) && (damage.LosePrimary? || damage.SpoilPrimary?) && stop >= 1
    requires var f := TrackAll(t, ops).files; Reading(f.primary).Good? && Reading(f.backup).Good?
    ensures var u := TrackAll(t, ops);
      var (g, c) := Recover(Do(u.files, damage).0, stop);
      && Published(c) && g.primary == u.files.backup
      && (Held(g) == Held(u.files) || Held(g) == Some(u.previous))
  {
    RunOneBehind(t, ops);
  }
}
