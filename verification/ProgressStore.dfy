/** Publication in the reading-progress store as it runs: a sequence of observations, one replace, and observations
    again, with a non-cooperating writer free to act between any two of them. */
module ProgressStore {
  import opened Base
  import opened Progress

  /** What a pathname names: an inode with its bytes. */
  datatype File = File(inode: nat, raw: Raw)

  datatype Path = Primary | Backup

  /** What this writer does and sees, in order. */
  datatype Event =
    | SawInode(path: Path, inode: Option<nat>)
    | SawBytes(path: Path, raw: Option<Raw>)
    | Prepared(made: nat, synced: Raw)    // the temporary file, written and synced
    | SawTemp(named: nat)                 // the temporary path still names this inode
    | Replaced(path: Path)

  datatype Published =
    | Confirmed(inode: nat)
    | Unconfirmed
    | NotPublished(code: Code)

  function InodeOf(f: Option<File>): Option<nat> {
    if f.Some? then Some(f.value.inode) else None
  }

  function RawOf(f: Option<File>): Option<Raw> {
    if f.Some? then Some(f.value.raw) else None
  }

  function Other(path: Path): Path {
    if path == Primary then Backup else Primary
  }

  predicate Extends(before: seq<Event>, after: seq<Event>) {
    |before| <= |after| && after[..|before|] == before
  }

  /** The events of one look at a path's bytes and inode. */
  function Sight(path: Path, raw: Option<Raw>, inode: Option<nat>, whole: bool): seq<Event> {
    [SawBytes(path, raw)] + (if whole || inode.Some? then [SawInode(path, inode)] else [])
  }

  predicate NoReplace(log: seq<Event>) {
    forall e :: e in log ==> !e.Replaced?
  }

  // ----- the logs of publications and operations

  /** The first look at guard and target. */
  function BaseSight(target: Path, baseInode: Option<nat>, guardInode: Option<nat>): seq<Event> {
    [SawInode(Other(target), guardInode), SawInode(target, baseInode)]
    + (if baseInode.Some? then [SawInode(target, baseInode)] else [])
  }

  /** The temporary file is made and synced, and its path found to name it still; in between, for a first write, no
      backup. */
  function PreparedLog(inode: nat, encoded: Raw, noOrphan: bool): seq<Event> {
    [Prepared(inode, encoded)] + (if noOrphan then [SawBytes(Backup, None)] else []) + [SawTemp(inode)]
  }

  /** What must be seen when publishing over `base`, guarded by the other path. */
  datatype Terms = Terms(
    target: Path,
    encoded: Raw,
    base: Option<Raw>,
    baseInode: Option<nat>,
    guardRaw: Option<Raw>,
    guardInode: Option<nat>,
    noOrphan: bool
  )

  /** Everything up to the replace: first looks, the temporary file `inode`, then guard and target as expected. */
  function UpToReplace(t: Terms, inode: nat): seq<Event> {
    BaseSight(t.target, t.baseInode, t.guardInode) + PreparedLog(inode, t.encoded, t.noOrphan)
    + Sight(Other(t.target), t.guardRaw, t.guardInode, false) + Sight(t.target, t.base, t.baseInode, false)
  }

  /** The observations a confirmed publication makes after its replace: the very inode it prepared, with its bytes. */
  function ChecksAfter(t: Terms, inode: nat): seq<Event> {
    [SawInode(t.target, Some(inode)), SawBytes(t.target, Some(t.encoded)), SawInode(t.target, Some(inode))]
    + Sight(Other(t.target), t.guardRaw, t.guardInode, true)
  }

  function ConfirmedLog(t: Terms, inode: nat): seq<Event> {
    UpToReplace(t, inode) + [Replaced(t.target)] + ChecksAfter(t, inode)
  }

  /** A publication that replaced its target once, whatever it saw afterwards. */
  predicate ReplacedLog(part: seq<Event>, t: Terms, inode: nat) {
    var upTo := UpToReplace(t, inode) + [Replaced(t.target)];
    Extends(upTo, part) && NoReplace(part[|upTo|..])
  }

  function EmptyLooks(): seq<Event> {
    Sight(Primary, None, None, true) + [SawBytes(Backup, None)] + Sight(Primary, None, None, true)
      + [SawBytes(Backup, None)]
  }

  function FirstTerms(encoded: Raw): Terms {
    Terms(Primary, encoded, None, None, None, None, true)
  }

  /** A confirmed first write: nothing there, twice, then one publication guarded by an absent backup. */
  function FirstWriteLog(encoded: Raw, inode: nat): seq<Event> {
    EmptyLooks() + ConfirmedLog(FirstTerms(encoded), inode)
  }

  function BackupLooks(raw: Raw, inode: Option<nat>, bytes: Option<Raw>, node: Option<nat>): seq<Event> {
    [SawInode(Backup, node), SawBytes(Backup, bytes)] + Sight(Backup, bytes, node, true)
      + Sight(Primary, Some(raw), inode, true)
  }

  /** The old primary's bytes over the backup, guarded by the primary. */
  function RollTerms(raw: Raw, inode: Option<nat>, bytes: Option<Raw>, node: Option<nat>): Terms {
    Terms(Backup, raw, bytes, node, Some(raw), inode, false)
  }

  /** The new payload over the primary, guarded by exactly the backup just published. */
  function NextTerms(encoded: Raw, raw: Raw, inode: Option<nat>, rolled: nat): Terms {
    Terms(Primary, encoded, Some(raw), inode, Some(raw), Some(rolled), false)
  }

  function RollingLog(encoded: Raw, raw: Raw, inode: Option<nat>, bytes: Option<Raw>, node: Option<nat>, rolled: nat,
                      last: nat): seq<Event> {
    BackupLooks(raw, inode, bytes, node) + ConfirmedLog(RollTerms(raw, inode, bytes, node), rolled)
    + Sight(Primary, Some(raw), inode, true) + ConfirmedLog(NextTerms(encoded, raw, inode, rolled), last)
  }

  /** A confirmed rolling write over a backup that may be replaced, with the inodes of the two files prepared for it. */
  ghost predicate IsRollingLog(part: seq<Event>, encoded: Raw, raw: Raw, inode: Option<nat>, next: nat) {
    exists bytes, node :: RolledOver(part, encoded, raw, inode, bytes, node, next)
  }

  predicate RolledOver(part: seq<Event>, encoded: Raw, raw: Raw, inode: Option<nat>, bytes: Option<Raw>,
                       node: Option<nat>, next: nat) {
    BackupCheck(raw, bytes).None? && part == RollingLog(encoded, raw, inode, bytes, node, next, next + 1)
  }

  /** A confirmed write of a payload over the primary's bytes `raw`, or over nothing. */
  ghost predicate IsWriteLog(part: seq<Event>, encoded: Raw, raw: Option<Raw>, inode: Option<nat>, next: nat) {
    if raw.None? then part == FirstWriteLog(encoded, next) else IsRollingLog(part, encoded, raw.value, inode, next)
  }

  /** The looks of a load that found these bytes at this inode. */
  function LoadLooks(raw: Option<Raw>, inode: Option<nat>): seq<Event> {
    [SawInode(Primary, inode), SawBytes(Primary, raw)] + (if raw.None? then [SawBytes(Backup, None)] else [])
    + Sight(Primary, raw, inode, true)
  }

  predicate Readable(raw: Option<Raw>) {
    raw.Some? ==> Decode(raw.value).Good?
  }

  /** The payload a mutation starts from. */
  function StartingFrom(raw: Option<Raw>): Payload
    requires Readable(raw)
  {
    if raw.None? then Payload(0, map[]) else Decode(raw.value).payload
  }

  /** A confirmed mutation: bytes seen at the primary, then the write of the next generation with these entries. */
  ghost predicate IsMutationLog(part: seq<Event>, raw: Option<Raw>, inode: Option<nat>, entries: Entries, next: nat)
    requires Readable(raw)
  {
    exists w :: part == LoadLooks(raw, inode) + w
      && IsWriteLog(w, Encode(Payload(StartingFrom(raw).generation + 1, entries)), raw, inode, next)
  }

  /** A confirmed save publishes the entries it saw with this one set. */
  ghost predicate IsSaveLog(part: seq<Event>, key: Book, snapshot: Snapshot, next: nat) {
    exists raw, inode :: SavedOver(part, raw, inode, key, snapshot, next)
  }

  ghost predicate SavedOver(part: seq<Event>, raw: Option<Raw>, inode: Option<nat>, key: Book, snapshot: Snapshot,
                            next: nat) {
    Readable(raw) && IsMutationLog(part, raw, inode, StartingFrom(raw).entries[key := snapshot], next)
  }

  /** A confirmed remove publishes the entries it saw without this one. */
  ghost predicate IsRemoveLog(part: seq<Event>, key: Book, next: nat) {
    exists raw, inode :: RemovedOver(part, raw, inode, key, next)
  }

  ghost predicate RemovedOver(part: seq<Event>, raw: Option<Raw>, inode: Option<nat>, key: Book, next: nat) {
    && Readable(raw) && key in StartingFrom(raw).entries
    && IsMutationLog(part, raw, inode, StartingFrom(raw).entries - {key}, next)
  }

  function BackupReadLooks(bytes: Raw, node: Option<nat>): seq<Event> {
    [SawInode(Backup, node), SawBytes(Backup, Some(bytes))] + Sight(Backup, Some(bytes), node, true)
  }

  function RecoveryLooks(raw: Option<Raw>, inode: Option<nat>, bytes: Raw, node: Option<nat>): seq<Event> {
    [SawInode(Primary, inode), SawBytes(Primary, raw)] + Sight(Primary, raw, inode, true)
    + BackupReadLooks(bytes, node) + [SawBytes(Primary, raw)]
  }

  function RecoveryTerms(raw: Option<Raw>, inode: Option<nat>, bytes: Raw, node: Option<nat>): Terms {
    Terms(Primary, bytes, raw, inode, Some(bytes), node, false)
  }

  /** A confirmed recovery publishes a decodable backup's bytes over an absent or corrupt primary, guarded by that
      backup. */
  ghost predicate IsRecoveryLog(part: seq<Event>, next: nat) {
    exists raw: Option<Raw>, inode, bytes, node :: (raw.Some? ==> Decode(raw.value).Corrupt?) && Decode(bytes).Good?
      && part == RecoveryLooks(raw, inode, bytes, node) + ConfirmedLog(RecoveryTerms(raw, inode, bytes, node), next)
  }

  /** Why a recovery is refused: no backup to recover from, or no loss to recover. */
  function Refusal(f: Files): Option<Code> {
    if f.primary.Some? && !Decode(f.primary.value).Corrupt? then
      Some(if Decode(f.primary.value).Good? then Nothing else Limit)
    else if f.backup.None? then Some(if f.primary.None? then Nothing else Stopped)
    else if !Decode(f.backup.value).Good? then Some(CodeOf(Decode(f.backup.value)))
    else None
  }

  class Store {
    var primary: Option<File>
    var backup: Option<File>
    var temp: Option<File>
    var nextInode: nat
    var log: seq<Event>
    const alone: bool    // no non-cooperating writer
    ghost var smooth: bool    // no step has failed

    constructor (primary: Option<File>, backup: Option<File>, nextInode: nat, alone: bool)
      ensures this.primary == primary && this.backup == backup && this.alone == alone && log == [] && smooth
    {
      this.primary := primary;
      this.backup := backup;
      this.temp := None;
      this.nextInode := nextInode;
      this.alone := alone;
      log := [];
      smooth := true;
    }

    function At(path: Path): Option<File>
      reads this
    {
      if path == Primary then primary else backup
    }

    function Disk(): Files
      reads this
    {
      Files(RawOf(primary), RawOf(backup))
    }

    /** Nothing changed on disk since the old state. */
    twostate predicate Still()
      reads this
    {
      primary == old(primary) && backup == old(backup) && temp == old(temp)
    }

    /** Between two steps anyone may change any file, unless this writer is alone, and the step may fail. */
    method Tick() returns (go: bool)
      modifies `primary, `backup, `temp, `smooth
      ensures alone ==> Still()
      ensures smooth == (old(smooth) && go)
    {
      if !alone {
        primary := *;
        backup := *;
        temp := *;
      }
      go := *;
      smooth := smooth && go;
    }

    method SeeInode(path: Path) returns (go: bool, inode: Option<nat>)
      modifies `primary, `backup, `temp, `log, `smooth
      ensures alone ==> Still()
      ensures smooth == (old(smooth) && go)
      ensures go ==> inode == InodeOf(At(path)) && log == old(log) + [SawInode(path, inode)]
      ensures !go ==> log == old(log)
    {
      go := Tick();
      inode := InodeOf(At(path));
      if go {
        log := log + [SawInode(path, inode)];
      }
    }

    method SeeBytes(path: Path) returns (go: bool, raw: Option<Raw>)
      modifies `primary, `backup, `temp, `log, `smooth
      ensures alone ==> Still()
      ensures smooth == (old(smooth) && go)
      ensures go ==> raw == RawOf(At(path)) && log == old(log) + [SawBytes(path, raw)]
      ensures !go ==> log == old(log)
    {
      go := Tick();
      raw := RawOf(At(path));
      if go {
        log := log + [SawBytes(path, raw)];
      }
    }

    /** The target names the published file, and the guard what it did. */
    predicate Stands(t: Terms, inode: nat)
      reads this
    {
      As(t.target, Some(t.encoded), Some(inode)) && As(Other(t.target), t.guardRaw, t.guardInode)
    }

    /** The path names a file of this inode with these bytes, or nothing. */
    predicate As(path: Path, raw: Option<Raw>, inode: Option<nat>)
      reads this
    {
      RawOf(At(path)) == raw && InodeOf(At(path)) == inode
    }

    /** Target, guard and backup are as a publication expects them. */
    predicate Expected(t: Terms)
      reads this
    {
      && As(t.target, t.base, t.baseInode) && As(Other(t.target), t.guardRaw, t.guardInode)
      && (t.noOrphan ==> backup.None?)
    }

    /** Bytes, then inode, of a path must be as expected; `whole` false leaves out the inode of an absent file. */
    method Unchanged(path: Path, raw: Option<Raw>, inode: Option<nat>, whole: bool) returns (same: bool)
      modifies `primary, `backup, `temp, `log, `smooth
      ensures alone ==> Still()
      ensures alone && same ==> raw == RawOf(At(path)) && (whole || inode.Some? ==> inode == InodeOf(At(path)))
      ensures smooth ==> old(smooth)
      ensures alone && smooth && As(path, raw, inode) && (whole ==> raw.None? == inode.None?) ==> same
      ensures same ==> log == old(log) + Sight(path, raw, inode, whole) && (whole ==> raw.None? == inode.None?)
      ensures Extends(old(log), log) && NoReplace(log[|old(log)|..])
    {
      var go, seen := SeeBytes(path);
      if !go || seen != raw {
        return false;
      }
      if whole || inode.Some? {
        var ok, node := SeeInode(path);
        if !ok || node != inode {
          return false;
        }
      }
      return whole ==> raw.None? == inode.None?;
    }

    /** The first look at guard and target, before anything is written. */
    method BasesMatch(target: Path, baseInode: Option<nat>, guardInode: Option<nat>) returns (same: bool)
      modifies `primary, `backup, `temp, `log, `smooth
      ensures alone ==> Still()
      ensures Extends(old(log), log) && NoReplace(log[|old(log)|..])
      ensures smooth ==> old(smooth)
      ensures alone && smooth && InodeOf(At(target)) == baseInode && InodeOf(At(Other(target))) == guardInode ==> same
      ensures same ==> log == old(log) + BaseSight(target, baseInode, guardInode)
    {
      var go, node := SeeInode(Other(target));
      if !go || node != guardInode {
        return false;
      }
      go, node := SeeInode(target);
      if !go || node != baseInode {
        return false;
      }
      if baseInode.Some? {
        go, node := SeeInode(target);
        return go && node == baseInode;
      }
      return true;
    }

    /** Writing and syncing the temporary file: a fresh inode with the encoded bytes, which anyone may touch
        afterwards. */
    method Prepare(encoded: Raw) returns (go: bool, inode: nat)
      modifies `primary, `backup, `temp, `nextInode, `log, `smooth
      ensures alone ==> primary == old(primary) && backup == old(backup)
      ensures smooth == (old(smooth) && go)
      ensures inode == old(nextInode) && nextInode == old(nextInode) + 1
      ensures go ==> temp == Some(File(inode, encoded)) && log == old(log) + [Prepared(inode, encoded)]
      ensures !go ==> log == old(log)
    {
      go := Tick();
      inode := nextInode;
      nextInode := nextInode + 1;
      if go {
        temp := Some(File(inode, encoded));
        log := log + [Prepared(inode, encoded)];
      }
    }

    /** The temporary path must still name the prepared inode. */
    method TempUnchanged(inode: nat) returns (same: bool)
      modifies `primary, `backup, `temp, `log, `smooth
      ensures alone ==> Still()
      ensures smooth ==> old(smooth)
      ensures alone && smooth && InodeOf(temp) == Some(inode) ==> same
      ensures same ==> InodeOf(temp) == Some(inode) && log == old(log) + [SawTemp(inode)]
      ensures !same ==> log == old(log)
    {
      same := Tick();
      same := same && InodeOf(temp) == Some(inode);
      if same {
        log := log + [SawTemp(inode)];
      }
    }

    /** `os.replace`: the target names whatever the temporary path names at that moment. */
    method Replace(target: Path) returns (done: bool)
      modifies `primary, `backup, `temp, `log, `smooth
      ensures smooth ==> old(smooth)
      ensures alone && smooth && old(temp).Some? ==> done
      ensures !done ==> log == old(log) && (alone ==> Still())
      ensures done ==> log == old(log) + [Replaced(target)]
      ensures done && alone ==> old(temp).Some? && At(target) == old(temp)
                                && At(Other(target)) == old(At(Other(target)))
    {
      done := Tick();
      done := done && temp.Some?;
      if done {
        if target == Primary {
          primary := temp;
        } else {
          backup := temp;
        }
        temp := None;
        log := log + [Replaced(target)];
      }
    }

    /** Confirmation: inode, bytes and inode again of the target, then bytes and inode of the guard. */
    method Confirm(t: Terms, inode: nat) returns (sure: bool)
      modifies `primary, `backup, `temp, `log, `smooth
      ensures alone ==> Still()
      ensures Extends(old(log), log) && NoReplace(log[|old(log)|..])
      ensures smooth ==> old(smooth)
      ensures alone && smooth && Stands(t, inode) ==> sure
      ensures sure ==> log == old(log) + ChecksAfter(t, inode)
    {
      var go, node := SeeInode(t.target);
      if !go || node != Some(inode) {
        return false;
      }
      var visible;
      go, visible := SeeBytes(t.target);
      if !go {
        return false;
      }
      go, node := SeeInode(t.target);
      if !go || node != Some(inode) {
        return false;
      }
      var guarded := Unchanged(Other(t.target), t.guardRaw, t.guardInode, true);
      return guarded && visible == Some(t.encoded);
    }

    /** The first half of a publication: matching bases and a durable temporary file; None, or why not. */
    method Stage(t: Terms) returns (problem: Option<Code>, inode: nat)
      modifies `primary, `backup, `temp, `log, `nextInode, `smooth
      ensures alone ==> primary == old(primary) && backup == old(backup)
      ensures alone && problem.None? ==> temp == Some(File(inode, t.encoded))
      ensures Extends(old(log), log) && NoReplace(log[|old(log)|..])
      ensures problem.Some? ==> problem.value in {Stopped, Stale, CorruptStore}
      ensures inode == old(nextInode) && (problem.None? ==> nextInode == inode + 1)
      ensures smooth ==> old(smooth)
      ensures alone && smooth && Expected(t) ==> problem.None?
      ensures problem.None? ==>
        log == old(log) + BaseSight(t.target, t.baseInode, t.guardInode) + PreparedLog(inode, t.encoded, t.noOrphan)
    {
      inode := nextInode;
      var same := BasesMatch(t.target, t.baseInode, t.guardInode);
      if !same {
        return Some(Stale), inode;
      }
      var go;
      go, inode := Prepare(t.encoded);
      if !go {
        return Some(Stopped), inode;
      }
      if t.noOrphan {
        var ok, orphan := SeeBytes(Backup);
        if !ok || orphan.Some? {
          return Some(if ok then CorruptStore else Stopped), inode;
        }
      }
      same := TempUnchanged(inode);
      return if same then None else Some(Stopped), inode;
    }

    /** `_atomic_publish_bytes_unlocked`: confirmed only if after its own one replace it saw the target name the very
        inode it had prepared and synced, with exactly the encoded bytes, and the guard as expected. */
    method Publish(t: Terms) returns (r: Published)
      modifies this
      ensures Extends(old(log), log) && Untouched(log[|old(log)|..], Other(t.target))
      ensures r.NotPublished? ==> NoReplace(log[|old(log)|..]) && r.code in {Stopped, Stale, CorruptStore}
      ensures !r.NotPublished? ==> ReplacedLog(log[|old(log)|..], t, old(nextInode)) && nextInode == old(nextInode) + 1
      ensures r.Confirmed? ==> r.inode == old(nextInode) && log == old(log) + ConfirmedLog(t, r.inode)
      ensures alone ==> At(Other(t.target)) == old(At(Other(t.target)))
      ensures alone && r.NotPublished? ==> At(t.target) == old(At(t.target))
      ensures alone && !r.NotPublished? ==> RawOf(At(t.target)) == Some(t.encoded)
      ensures alone && r.Confirmed? ==> InodeOf(At(t.target)) == Some(r.inode)
      ensures smooth ==> old(smooth)
      ensures alone && smooth && old(Expected(t)) ==> r.Confirmed?
    {
      hide ChecksAfter, Sight, BaseSight, PreparedLog;
      var problem, inode := Stage(t);
      if problem.Some? {
        return NotPublished(problem.value);
      }
      ghost var staged := log;
      var same := Unchanged(Other(t.target), t.guardRaw, t.guardInode, false);
      if !same {
        NoReplaceTwice(old(log), staged, log);
        return NotPublished(Stale);
      }
      ghost var guarded := log;
      same := Unchanged(t.target, t.base, t.baseInode, false);
      NoReplaceTwice(staged, guarded, log);
      NoReplaceTwice(old(log), staged, log);
      if !same {
        return NotPublished(Stale);
      }
      ghost var checked := log;
      UpToSplits(old(log), staged, guarded, checked, t, inode);
      var done := Replace(t.target);
      if !done {
        return NotPublished(Stopped);
      }
      ghost var replaced := log;
      var sure := Confirm(t, inode);
      hide UpToReplace;
      PartsOfLog(old(log), checked, replaced, log, t, inode);
      return if sure then Confirmed(inode) else Unconfirmed;
    }

    // ----- operations

    /** `_write_payload_unlocked`: the old primary's bytes become the backup, then the new payload becomes the
        primary. */
    method WritePayload(payload: Payload, raw: Option<Raw>, inode: Option<nat>) returns (r: Code, ghost stop: nat)
      modifies this
      ensures Extends(old(log), log)
      ensures Progress.Published(r) <==> !Untouched(log[|old(log)|..], Primary)
      ensures r == Completed ==> IsWriteLog(log[|old(log)|..], Encode(payload), raw, inode, old(nextInode))
      ensures alone && raw == old(Disk()).primary && (raw.Some? ==> Decode(raw.value).Good?)
              && (raw.None? ==> old(backup).None?) ==>
        var (g, c) := Write(old(Disk()), payload, stop);
        Disk() == g && (Progress.Published(r) <==> Progress.Published(c))
      ensures smooth ==> old(smooth)
      ensures alone && smooth && old(As(Primary, raw, inode)) && (raw.None? ==> old(backup).None?) ==>
        r == Write(old(Disk()), payload, 4).1
    {
      stop := 0;
      if inode.None? != raw.None? {
        return Stale, 0;
      }
      if raw.None? {
        r := FirstWrite(payload);
        stop := if r == Completed then 4 else if r == Unknown then 3 else 0;
      } else {
        r, stop := RollingWrite(payload, raw.value, inode);
      }
    }

    /** Twice: the primary is still absent and no backup has appeared. */
    method StillEmpty() returns (empty: bool)
      modifies `primary, `backup, `temp, `log, `smooth
      ensures alone ==> Still()
      ensures Extends(old(log), log) && NoReplace(log[|old(log)|..])
      ensures smooth ==> old(smooth)
      ensures alone && smooth && primary.None? && backup.None? ==> empty
      ensures empty ==> log == old(log) + EmptyLooks()
    {
      empty := Unchanged(Primary, None, None, true);
      ghost var one := log;
      if empty {
        empty := NoOrphan();
        NoReplaceTwice(old(log), one, log);
      }
      ghost var two := log;
      if empty {
        empty := Unchanged(Primary, None, None, true);
        NoReplaceTwice(old(log), two, log);
      }
      ghost var three := log;
      if empty {
        empty := NoOrphan();
        NoReplaceTwice(old(log), three, log);
      }
    }

    /** The write of an empty store: no backup may exist, and none may appear. */
    method FirstWrite(payload: Payload) returns (r: Code)
      modifies this
      ensures Extends(old(log), log)
      ensures Progress.Published(r) <==> !Untouched(log[|old(log)|..], Primary)
      ensures r == Completed ==> log == old(log) + FirstWriteLog(Encode(payload), old(nextInode))
      ensures alone && !Progress.Published(r) ==> Disk() == old(Disk())
      ensures alone && Progress.Published(r) ==> Disk() == Files(Some(Encode(payload)), old(Disk()).backup)
      ensures smooth ==> old(smooth)
      ensures alone && smooth && old(primary).None? && old(backup).None? ==> r == Completed
    {
      hide ConfirmedLog, EmptyLooks, Encode, UpToReplace;
      var empty := StillEmpty();
      ghost var looked := log;
      if !empty {
        return Stale;
      }
      var p := Publish(FirstTerms(Encode(payload)));
      JoinLogs(old(log), looked, log);
      match p
      case NotPublished(code) => return code;
      case Unconfirmed =>
        ReplacedOnce(log[|looked|..], FirstTerms(Encode(payload)), old(nextInode));
        return Unknown;
      case Confirmed(node) =>
        ReplacedOnce(log[|looked|..], FirstTerms(Encode(payload)), old(nextInode));
        return Completed;
    }

    method NoOrphan() returns (none: bool)
      modifies `primary, `backup, `temp, `log, `smooth
      ensures alone ==> Still()
      ensures Extends(old(log), log) && NoReplace(log[|old(log)|..])
      ensures smooth ==> old(smooth)
      ensures alone && smooth && backup.None? ==> none
      ensures none ==> log == old(log) + [SawBytes(Backup, None)]
    {
      var go, orphan := SeeBytes(Backup);
      return go && orphan.None?;
    }

    /** The looks before the rolling backup: the backup as it is, whether it may be replaced, and the primary
        unchanged. */
    method BackupReplaceable(raw: Raw, inode: Option<nat>)
      returns (problem: Option<Code>, bytes: Option<Raw>, node: Option<nat>)
      modifies `primary, `backup, `temp, `log, `smooth
      ensures alone ==> Still()
      ensures Extends(old(log), log) && NoReplace(log[|old(log)|..])
      ensures problem.Some? ==> !Progress.Published(problem.value)
      ensures problem.None? ==> BackupCheck(raw, bytes).None? && log == old(log) + BackupLooks(raw, inode, bytes, node)
      ensures alone && problem.None? ==> As(Backup, bytes, node)
      ensures smooth ==> old(smooth)
      ensures alone && smooth && As(Primary, Some(raw), inode) ==> problem == BackupCheck(raw, RawOf(backup))
    {
      hide BackupCheck;
      var go;
      go, node := SeeInode(Backup);
      if !go {
        return Some(Stopped), None, node;
      }
      go, bytes := SeeBytes(Backup);
      if !go {
        return Some(Stopped), bytes, node;
      }
      ghost var one := log;
      var same := Unchanged(Backup, bytes, node, true);
      NoReplaceTwice(old(log), one, log);
      if !same {
        return Some(Stale), bytes, node;
      }
      var check := BackupCheck(raw, bytes);
      if check.Some? {
        return check, bytes, node;
      }
      ghost var two := log;
      same := Unchanged(Primary, Some(raw), inode, true);
      NoReplaceTwice(old(log), two, log);
      return if same then None else Some(Stale), bytes, node;
    }

    /** The write over an existing primary. */
    method RollingWrite(payload: Payload, raw: Raw, inode: Option<nat>) returns (r: Code, ghost stop: nat)
      modifies this
      ensures Extends(old(log), log)
      ensures Progress.Published(r) <==> !Untouched(log[|old(log)|..], Primary)
      ensures r == Completed ==> IsRollingLog(log[|old(log)|..], Encode(payload), raw, inode, old(nextInode))
      ensures alone && Some(raw) == old(Disk()).primary ==>
        var (g, c) := Write(old(Disk()), payload, stop);
        Disk() == g && (Progress.Published(r) <==> Progress.Published(c))
      ensures smooth ==> old(smooth)
      ensures alone && smooth && old(As(Primary, Some(raw), inode)) ==> r == Write(old(Disk()), payload, 4).1
    {
      hide ConfirmedLog, UpToReplace, ReplacedLog, Sight, BackupLooks, Encode, BackupCheck;
      stop := 0;
      var problem, bytes, node := BackupReplaceable(raw, inode);
      ghost var looked := log;
      if problem.Some? {
        return problem.value, 0;
      }
      var p := Publish(RollTerms(raw, inode, bytes, node));
      ghost var rolled := log;
      JoinLogs(old(log), looked, rolled);
      UntouchedTwice(old(log), looked, rolled, Primary);
      if p.NotPublished? {
        return p.code, 0;
      }
      if p.Unconfirmed? {
        return BackupUnknown, 2;
      }
      var same := Unchanged(Primary, Some(raw), inode, true);
      ghost var ready := log;
      UntouchedTwice(old(log), rolled, ready, Primary);
      if !same {
        return Stale, 1;
      }
      ghost var last := nextInode;
      var q := Publish(NextTerms(Encode(payload), raw, inode, p.inode));
      JoinLogs(old(log), ready, log);
      if q.NotPublished? {
        UntouchedTwice(old(log), ready, log, Primary);
        return q.code, 1;
      }
      ReplacedOnce(log[|ready|..], NextTerms(Encode(payload), raw, inode, p.inode), last);
      if q.Unconfirmed? {
        return Unknown, 3;
      }
      RollingJoined(old(log), looked, rolled, ready, log, Encode(payload), raw, inode, bytes, node, p.inode, q.inode);
      return Completed, 4;
    }

    // ----- save, remove, recover

    /** `_load_state_unlocked` for a mutation, with the primary's inode seen before and bytes and inode re-checked
        after. */
    method LoadState() returns (loaded: Loaded, raw: Option<Raw>, inode: Option<nat>)
      modifies `primary, `backup, `temp, `log, `smooth
      ensures alone ==> Still()
      ensures Extends(old(log), log) && NoReplace(log[|old(log)|..])
      ensures loaded.Not? ==> !Progress.Published(loaded.code)
      ensures loaded.Ready? ==>
          Readable(raw) && loaded == Ready(StartingFrom(raw)) && log == old(log) + LoadLooks(raw, inode)
      ensures alone && loaded.Ready? ==>
          loaded == Load(old(Disk())) && raw == old(Disk()).primary && inode == InodeOf(primary)
      ensures alone && loaded.Ready? && raw.None? ==> old(backup).None?
      ensures smooth ==> old(smooth)
      ensures alone && smooth ==> loaded == Load(old(Disk()))
    {
      var go;
      go, inode := SeeInode(Primary);
      raw := None;
      if !go {
        return Not(Stopped), raw, inode;
      }
      go, raw := SeeBytes(Primary);
      if !go {
        return Not(Stopped), raw, inode;
      }
      if raw.Some? {
        var d := Decode(raw.value);
        if !d.Good? {
          return Not(CodeOf(d)), raw, inode;
        }
        loaded := Ready(d.payload);
      } else {
        var orphan;
        go, orphan := SeeBytes(Backup);
        if !go || orphan.Some? {
          return Not(if go then CodeOf(Decode(orphan.value)) else Stopped), raw, inode;
        }
        loaded := Ready(Payload(0, map[]));
      }
      ghost var read := log;
      var same := Unchanged(Primary, raw, inode, true);
      NoReplaceTwice(old(log), read, log);
      if !same {
        return Not(Stale), raw, inode;
      }
    }

    /** `save`: alone, it does to the files exactly what Save says for some stopping point. */
    method SaveEntry(key: Book, snapshot: Snapshot) returns (r: Code, ghost stop: nat)
      modifies this
      ensures Extends(old(log), log)
      ensures Progress.Published(r) <==> !Untouched(log[|old(log)|..], Primary)
      ensures r == Completed ==> IsSaveLog(log[|old(log)|..], key, snapshot, old(nextInode))
      ensures alone && Progress.Published(r) ==>
        var (g, c) := Save(old(Disk()), key, snapshot, stop); Disk() == g && Progress.Published(c)
      ensures alone && !Progress.Published(r) ==>
        Disk() == old(Disk())
        || (var (g, c) := Save(old(Disk()), key, snapshot, stop); Disk() == g && !Progress.Published(c))
      ensures smooth ==> old(smooth)
      ensures alone && smooth ==> r == Save(old(Disk()), key, snapshot, 4).1
    {
      hide LoadLooks, IsWriteLog, IsMutationLog, Write, Decode, Encode;
      stop := 0;
      var loaded, raw, inode := LoadState();
      ghost var read := log;
      if loaded.Not? {
        return loaded.code, 0;
      }
      var p := loaded.payload;
      if (key !in p.entries && |p.entries| >= MAX_ENTRIES) || p.generation >= MAX_GENERATION {
        return Limit, 0;
      }
      r, stop := WritePayload(Payload(p.generation + 1, p.entries[key := snapshot]), raw, inode);
      JoinLogs(old(log), read, log);
      MutationJoined(old(log), read, log, raw, inode, p.entries[key := snapshot], old(nextInode));
      assert r == Completed ==> SavedOver(log[|old(log)|..], raw, inode, key, snapshot, old(nextInode));
    }

    /** `remove`. */
    method RemoveEntry(key: Book) returns (r: Code, ghost stop: nat)
      modifies this
      ensures Extends(old(log), log)
      ensures Progress.Published(r) <==> !Untouched(log[|old(log)|..], Primary)
      ensures r == Completed ==> IsRemoveLog(log[|old(log)|..], key, old(nextInode))
      ensures alone && Progress.Published(r) ==>
        var (g, c) := Remove(old(Disk()), key, stop); Disk() == g && Progress.Published(c)
      ensures alone && !Progress.Published(r) ==>
        Disk() == old(Disk()) || (var (g, c) := Remove(old(Disk()), key, stop); Disk() == g && !Progress.Published(c))
      ensures smooth ==> old(smooth)
      ensures alone && smooth ==> r == Remove(old(Disk()), key, 4).1
    {
      hide LoadLooks, IsWriteLog, IsMutationLog, Write, Decode, Encode;
      stop := 0;
      var loaded, raw, inode := LoadState();
      ghost var read := log;
      if loaded.Not? {
        return loaded.code, 0;
      }
      var p := loaded.payload;
      if key !in p.entries {
        return Nothing, 0;
      }
      if p.generation >= MAX_GENERATION {
        return Limit, 0;
      }
      r, stop := WritePayload(Payload(p.generation + 1, p.entries - {key}), raw, inode);
      JoinLogs(old(log), read, log);
      MutationJoined(old(log), read, log, raw, inode, p.entries - {key}, old(nextInode));
      assert r == Completed ==> RemovedOver(log[|old(log)|..], raw, inode, key, old(nextInode));
    }

    /** `recover_from_backup` without revision arguments. */
    method RecoverFromBackup() returns (r: Code, ghost stop: nat)
      modifies this
      ensures Extends(old(log), log) && Untouched(log[|old(log)|..], Backup)
      ensures !Progress.Published(r) ==> NoReplace(log[|old(log)|..])
      ensures Progress.Published(r) <==> !Untouched(log[|old(log)|..], Primary)
      ensures r == Completed ==> IsRecoveryLog(log[|old(log)|..], old(nextInode))
      ensures alone && Progress.Published(r) ==>
        var (g, c) := Recover(old(Disk()), stop); Disk() == g && Progress.Published(c)
      ensures alone && !Progress.Published(r) ==> Disk() == old(Disk())
      ensures smooth ==> old(smooth)
      ensures alone && smooth ==> r == Recover(old(Disk()), 2).1
    {
      hide ConfirmedLog, UpToReplace, ReplacedLog, RecoveryLooks;
      stop := 0;
      var problem, raw, inode, backupRaw, backupInode := Recoverable();
      ghost var looked := log;
      if problem.Some? {
        return problem.value, 0;
      }
      var t := RecoveryTerms(raw, inode, backupRaw.value, backupInode);
      var p := Publish(t);
      JoinLogs(old(log), looked, log);
      if p.NotPublished? {
        return p.code, 0;
      }
      ReplacedOnce(log[|looked|..], t, old(nextInode));
      return if p.Confirmed? then Completed else Unknown, if p.Confirmed? then 2 else 1;
    }

    /** The primary read for recovery: it must be absent or corrupt. */
    method PrimaryLost() returns (problem: Option<Code>, raw: Option<Raw>, inode: Option<nat>)
      modifies `primary, `backup, `temp, `log, `smooth
      ensures alone ==> Still()
      ensures Extends(old(log), log) && NoReplace(log[|old(log)|..])
      ensures problem.Some? ==> !Progress.Published(problem.value)
      ensures problem.None? ==> (raw.Some? ==> Decode(raw.value).Corrupt?)
      ensures problem.None? ==>
          log == old(log) + ([SawInode(Primary, inode), SawBytes(Primary, raw)] + Sight(Primary, raw, inode, true))
      ensures alone && problem.None? ==> As(Primary, raw, inode)
      ensures smooth ==> old(smooth)
      ensures alone && smooth && primary.None? ==> problem.None?
      ensures alone && smooth && primary.Some? ==>
          var d := Decode(primary.value.raw);
          problem == if d.Corrupt? then None else Some(if d.Good? then Nothing else Limit)
    {
      hide Decode;
      raw := None;
      var go;
      go, inode := SeeInode(Primary);
      if !go {
        return Some(Stopped), raw, inode;
      }
      go, raw := SeeBytes(Primary);
      if !go {
        return Some(Stopped), raw, inode;
      }
      ghost var one := log;
      var same := Unchanged(Primary, raw, inode, true);
      NoReplaceTwice(old(log), one, log);
      if !same {
        return Some(Stopped), raw, inode;
      }
      if raw.Some? && !Decode(raw.value).Corrupt? {
        return Some(if Decode(raw.value).Good? then Nothing else Limit), raw, inode;
      }
      return None, raw, inode;
    }

    /** The looks of a recovery: the primary must be absent or corrupt, the backup must decode, and neither may
        change. */
    method Recoverable() returns (problem: Option<Code>, raw: Option<Raw>, inode: Option<nat>, bytes: Option<Raw>,
                                  node: Option<nat>)
      modifies `primary, `backup, `temp, `log, `smooth
      ensures alone ==> Still()
      ensures Extends(old(log), log) && NoReplace(log[|old(log)|..])
      ensures problem.Some? ==> !Progress.Published(problem.value)
      ensures problem.None? ==> bytes.Some? && Decode(bytes.value).Good? && (raw.Some? ==> Decode(raw.value).Corrupt?)
      ensures problem.None? ==> log == old(log) + RecoveryLooks(raw, inode, bytes.value, node)
      ensures alone && problem.None? ==> As(Primary, raw, inode) && As(Backup, bytes, node)
      ensures smooth ==> old(smooth)
      ensures alone && smooth ==> problem == Refusal(old(Disk()))
    {
      hide Decode, BackupReadLooks, Sight;
      bytes, node := None, None;
      problem, raw, inode := PrimaryLost();
      if problem.Some? {
        return;
      }
      ghost var one := log;
      problem, bytes, node := BackupReadable(raw.None?);
      NoReplaceTwice(old(log), one, log);
      if problem.Some? {
        return;
      }
      ghost var two := log;
      var go, current := SeeBytes(Primary);
      NoReplaceTwice(old(log), two, log);
      if !go || current != raw {
        return Some(Stale), raw, inode, bytes, node;
      }
    }

    /** The backup read for recovery; it may be missing only if the primary is too. */
    method BackupReadable(missingOk: bool) returns (problem: Option<Code>, bytes: Option<Raw>, node: Option<nat>)
      modifies `primary, `backup, `temp, `log, `smooth
      ensures alone ==> Still()
      ensures Extends(old(log), log) && NoReplace(log[|old(log)|..])
      ensures problem.Some? ==> !Progress.Published(problem.value)
      ensures problem.None? ==>
          bytes.Some? && Decode(bytes.value).Good? && log == old(log) + BackupReadLooks(bytes.value, node)
      ensures alone && problem.None? ==> As(Backup, bytes, node)
      ensures smooth ==> old(smooth)
      ensures alone && smooth && backup.None? ==> problem == Some(if missingOk then Nothing else Stopped)
      ensures alone && smooth && backup.Some? ==>
          var d := Decode(backup.value.raw); problem == if d.Good? then None else Some(CodeOf(d))
    {
      bytes := None;
      var go;
      go, node := SeeInode(Backup);
      if !go || (node.None? && !missingOk) {
        return Some(Stopped), bytes, node;
      }
      go, bytes := SeeBytes(Backup);
      if !go {
        return Some(Stopped), bytes, node;
      }
      if bytes.Some? && !Decode(bytes.value).Good? {
        return Some(CodeOf(Decode(bytes.value))), bytes, node;
      }
      ghost var one := log;
      var same := Unchanged(Backup, bytes, node, true);
      NoReplaceTwice(old(log), one, log);
      return if !same then Some(Stopped) else if bytes.None? then Some(Nothing) else None, bytes, node;
    }
  }

  /** This writer replaced nothing at that path. */
  predicate Untouched(part: seq<Event>, path: Path) {
    Replaced(path) !in part
  }

  lemma NoReplaceTwice(a: seq<Event>, b: seq<Event>, c: seq<Event>)
    requires Extends(a, b) && Extends(b, c) && NoReplace(b[|a|..]) && NoReplace(c[|b|..])
    ensures Extends(a, c) && NoReplace(c[|a|..])
  {
    assert c[|a|..] == b[|a|..] + c[|b|..];
  }

  lemma UpToSplits(start: seq<Event>, staged: seq<Event>, guarded: seq<Event>, checked: seq<Event>, t: Terms,
                   inode: nat)
    requires staged == start + BaseSight(t.target, t.baseInode, t.guardInode)
      + PreparedLog(inode, t.encoded, t.noOrphan)
    requires guarded == staged + Sight(Other(t.target), t.guardRaw, t.guardInode, false)
    requires checked == guarded + Sight(t.target, t.base, t.baseInode, false)
    ensures checked == start + UpToReplace(t, inode)
  {
    hide BaseSight, PreparedLog, Sight;
  }

  lemma UpToReplacesNothing(t: Terms, inode: nat)
    ensures NoReplace(UpToReplace(t, inode)) && NoReplace(ChecksAfter(t, inode))
  {
  }

  lemma PartsOfLog(start: seq<Event>, checked: seq<Event>, replaced: seq<Event>, end: seq<Event>, t: Terms, inode: nat)
    requires checked == start + UpToReplace(t, inode) && replaced == checked + [Replaced(t.target)]
    requires Extends(replaced, end) && NoReplace(end[|replaced|..])
    ensures Extends(start, end) && ReplacedLog(end[|start|..], t, inode) && Untouched(end[|start|..], Other(t.target))
    ensures end == replaced + ChecksAfter(t, inode) ==> end == start + ConfirmedLog(t, inode)
  {
    UpToReplacesNothing(t, inode);
    hide UpToReplace, ChecksAfter;
    var rest := end[|replaced|..];
    var upTo := UpToReplace(t, inode) + [Replaced(t.target)];
    assert end == start + upTo + rest;
    assert end[|start|..] == upTo + rest;
  }

  /** What a confirmed log tells: its one replace came after its one temporary file was made, and the inode seen at
      the target afterwards, before and after its bytes, is that file's. */
  lemma ConfirmedOnce(t: Terms, inode: nat) returns (made: nat, replaced: nat)
    ensures made < replaced < replaced + 3 < |ConfirmedLog(t, inode)|
    ensures var log := ConfirmedLog(t, inode);
      && log[made] == Prepared(inode, t.encoded) && log[replaced] == Replaced(t.target)
      && log[replaced + 1] == SawInode(t.target, Some(inode))
      && log[replaced + 2] == SawBytes(t.target, Some(t.encoded))
      && log[replaced + 3] == SawInode(t.target, Some(inode))
      && (forall k :: 0 <= k < |log| && log[k].Replaced? ==> k == replaced)
      && (forall k :: 0 <= k < |log| && log[k].Prepared? ==> k == made)
  {
    made := |BaseSight(t.target, t.baseInode, t.guardInode)|;
    replaced := |UpToReplace(t, inode)|;
  }

  // ----- what the logs tell

  /** These events happen in the log, in this order, perhaps among others. */
  predicate InTurn(es: seq<Event>, log: seq<Event>) {
    if es == [] then true
    else if log == [] then false
    else if log[0] == es[0] then InTurn(es[1..], log[1..])
    else InTurn(es, log[1..])
  }

  /** The paths replaced, in order. */
  function Replacements(log: seq<Event>): seq<Path> {
    if log == [] then [] else (if log[0].Replaced? then [log[0].path] else []) + Replacements(log[1..])
  }

  lemma {:induction false} ReplacementsConcat(a: seq<Event>, b: seq<Event>)
    ensures Replacements(a + b) == Replacements(a) + Replacements(b)
  {
    if a == [] {
      assert a + b == b && [] + Replacements(b) == Replacements(b);
    } else {
      var head := if a[0].Replaced? then [a[0].path] else [];
      assert (a + b)[0] == a[0] && (a + b)[1..] == a[1..] + b;
      ReplacementsConcat(a[1..], b);
      var first, rest := Replacements(a[1..]), Replacements(b);
      assert head + (first + rest) == (head + first) + rest;
    }
  }

  /** Fewer events are in turn wherever more are. */
  lemma {:induction false} LaterInTurn(e: Event, es: seq<Event>, log: seq<Event>)
    requires InTurn([e] + es, log)
    ensures InTurn(es, log)
    decreases |log|, 0
  {
    assert ([e] + es)[1..] == es;
    if log[0] == e {
      InTurnMore(es, log[0], log[1..]);
    } else {
      LaterInTurn(e, es, log[1..]);
      InTurnMore(es, log[0], log[1..]);
    }
    assert log == [log[0]] + log[1..];
  }

  lemma {:induction false} InTurnMore(es: seq<Event>, e: Event, log: seq<Event>)
    requires InTurn(es, log)
    ensures InTurn(es, [e] + log)
    decreases |log|, 1
  {
    assert ([e] + log)[1..] == log;
    if es != [] && e == es[0] {
      assert es == [es[0]] + es[1..];
      LaterInTurn(es[0], es[1..], log);
    }
  }

  lemma {:induction false} InTurnConcat(a: seq<Event>, b: seq<Event>, x: seq<Event>, y: seq<Event>)
    requires InTurn(a, x) && InTurn(b, y)
    ensures InTurn(a + b, x + y)
    decreases |x|
  {
    if x == [] {
      assert a == [] && a + b == b && x + y == y;
    } else {
      assert (x + y)[0] == x[0] && (x + y)[1..] == x[1..] + y;
      if a == [] {
        InTurnConcat(a, b, x[1..], y);
        assert a + b == b;
        InTurnMore(b, x[0], x[1..] + y);
        assert [x[0]] + (x[1..] + y) == x + y;
      } else {
        assert (a + b)[0] == a[0] && (a + b)[1..] == a[1..] + b;
        InTurnConcat(if x[0] == a[0] then a[1..] else a, b, x[1..], y);
      }
    }
  }

  lemma {:induction false} InTurnSelf(es: seq<Event>)
    ensures InTurn(es, es)
  {
    if es != [] {
      InTurnSelf(es[1..]);
    }
  }

  /** The looks a publication needs before its replace, after its file was made: the file still at its path, guard and
      target as they must be, and where asked no backup. */
  function Needed(t: Terms, inode: nat): seq<Event> {
    [Prepared(inode, t.encoded)] + (if t.noOrphan then [SawBytes(Backup, None)] else [])
    + [SawTemp(inode), SawBytes(Other(t.target), t.guardRaw)]
    + (if t.guardInode.Some? then [SawInode(Other(t.target), t.guardInode)] else [])
    + [SawBytes(t.target, t.base)]
    + (if t.baseInode.Some? then [SawInode(t.target, t.baseInode)] else [])
  }

  /** The looks that confirm it: the target names the file made, before and after its bytes are read, and the guard is
      still there with its bytes and inode. */
  function Confirming(t: Terms, inode: nat): seq<Event> {
    [SawInode(t.target, Some(inode)), SawBytes(t.target, Some(t.encoded)), SawInode(t.target, Some(inode)),
     SawBytes(Other(t.target), t.guardRaw), SawInode(Other(t.target), t.guardInode)]
  }

  /** A publication as it must go: after its one file was made everything was as it had to be, then its target was
      replaced, and then seen to be that very file under the same guard. */
  function Story(t: Terms, inode: nat): seq<Event> {
    Needed(t, inode) + [Replaced(t.target)] + Confirming(t, inode)
  }

  /** A confirmed log tells this story, and of no other replace. */
  lemma ConfirmedTells(t: Terms, inode: nat)
    ensures InTurn(Story(t, inode), ConfirmedLog(t, inode))
    ensures Replacements(ConfirmedLog(t, inode)) == [t.target]
  {
    NeededSeen(t, inode);
    InTurnSelf([Replaced(t.target)]);
    InTurnSelf(Confirming(t, inode));
    assert ChecksAfter(t, inode) == Confirming(t, inode);
    LookingReplacesNothing(UpToReplace(t, inode));
    LookingReplacesNothing(ChecksAfter(t, inode));
    UpToReplacesNothing(t, inode);
    ReplacementsConcat(UpToReplace(t, inode) + [Replaced(t.target)], ChecksAfter(t, inode));
    ReplacementsConcat(UpToReplace(t, inode), [Replaced(t.target)]);
    InTurnConcat(Needed(t, inode), [Replaced(t.target)], UpToReplace(t, inode), [Replaced(t.target)]);
    InTurnConcat(Needed(t, inode) + [Replaced(t.target)], Confirming(t, inode),
                 UpToReplace(t, inode) + [Replaced(t.target)], ChecksAfter(t, inode));
  }

  lemma NeededSeen(t: Terms, inode: nat)
    ensures InTurn(Needed(t, inode), UpToReplace(t, inode))
  {
    var first := BaseSight(t.target, t.baseInode, t.guardInode);
    var guard := Sight(Other(t.target), t.guardRaw, t.guardInode, false);
    var base := Sight(t.target, t.base, t.baseInode, false);
    var prepared := PreparedLog(inode, t.encoded, t.noOrphan);
    assert InTurn([], first);
    assert Needed(t, inode) == [] + (prepared + guard + base);
    assert UpToReplace(t, inode) == first + (prepared + guard + base);
    InTurnSelf(prepared + guard + base);
    InTurnConcat([], prepared + guard + base, first, prepared + guard + base);
  }

  lemma {:induction false} LookingReplacesNothing(log: seq<Event>)
    ensures NoReplace(log) <==> Replacements(log) == []
  {
    if log != [] {
      LookingReplacesNothing(log[1..]);
      assert log == [log[0]] + log[1..];
    }
  }
  // ----- what completed operations tell

  /** A first write: nothing was there, and the payload became the primary, without a backup beside it. */
  predicate FirstTold(part: seq<Event>, encoded: Raw, next: nat) {
    && InTurn([SawBytes(Primary, None), SawBytes(Backup, None)]
              + Story(Terms(Primary, encoded, None, None, None, None, true), next), part)
    && Replacements(part) == [Primary]
  }

  /** A rolling write: the primary's bytes became the backup, then the payload the primary, over the same primary and
      under exactly that backup. */
  ghost predicate RollingTold(part: seq<Event>, encoded: Raw, raw: Raw, inode: Option<nat>, next: nat) {
    Replacements(part) == [Backup, Primary]
    && exists bytes, node :: RolledInTurn(part, encoded, raw, inode, bytes, node, next)
  }

  predicate RolledInTurn(part: seq<Event>, encoded: Raw, raw: Raw, inode: Option<nat>, bytes: Option<Raw>,
                         node: Option<nat>, next: nat) {
    && BackupCheck(raw, bytes).None?
    && InTurn([SawBytes(Backup, bytes), SawBytes(Primary, Some(raw))]
              + Story(Terms(Backup, raw, bytes, node, Some(raw), inode, false), next)
              + [SawBytes(Primary, Some(raw))]
              + Story(Terms(Primary, encoded, Some(raw), inode, Some(raw), Some(next), false), next + 1), part)
  }

  ghost predicate WriteTold(part: seq<Event>, encoded: Raw, raw: Option<Raw>, inode: Option<nat>, next: nat) {
    if raw.None? then FirstTold(part, encoded, next) else RollingTold(part, encoded, raw.value, inode, next)
  }

  lemma FirstTells(encoded: Raw, next: nat)
    ensures FirstTold(FirstWriteLog(encoded, next), encoded, next)
  {
    var t := Terms(Primary, encoded, None, None, None, None, true);
    var looks := EmptyLooks();
    assert InTurn([SawBytes(Primary, None), SawBytes(Backup, None)], looks);
    LookingReplacesNothing(looks);
    hide EmptyLooks, ConfirmedLog, Story;
    ConfirmedTells(t, next);
    ReplacementsConcat(looks, ConfirmedLog(t, next));
    InTurnConcat([SawBytes(Primary, None), SawBytes(Backup, None)], Story(t, next), looks, ConfirmedLog(t, next));
  }

  lemma RollingTells(encoded: Raw, raw: Raw, inode: Option<nat>, bytes: Option<Raw>, node: Option<nat>, next: nat)
    requires BackupCheck(raw, bytes).None?
    ensures RollingTold(RollingLog(encoded, raw, inode, bytes, node, next, next + 1), encoded, raw, inode, next)
  {
    var t := Terms(Backup, raw, bytes, node, Some(raw), inode, false);
    var u := Terms(Primary, encoded, Some(raw), inode, Some(raw), Some(next), false);
    var looks, again := BackupLooks(raw, inode, bytes, node), Sight(Primary, Some(raw), inode, true);
    var before, between := [SawBytes(Backup, bytes), SawBytes(Primary, Some(raw))], [SawBytes(Primary, Some(raw))];
    BackupLooksTell(raw, inode, bytes, node);
    assert InTurn(between, again);
    LookingReplacesNothing(again);
    ConfirmedTells(t, next);
    ConfirmedTells(u, next + 1);
    var a, b := ConfirmedLog(t, next), ConfirmedLog(u, next + 1);
    hide BackupLooks, ConfirmedLog, Story, Sight, BackupCheck;
    ReplacementsConcat(looks + a + again, b);
    ReplacementsConcat(looks + a, again);
    ReplacementsConcat(looks, a);
    InTurnConcat(before, Story(t, next), looks, a);
    InTurnConcat(before + Story(t, next), between, looks + a, again);
    InTurnConcat(before + Story(t, next) + between, Story(u, next + 1), looks + a + again, b);
    assert RolledInTurn(looks + a + again + b, encoded, raw, inode, bytes, node, next);
  }

  lemma BackupLooksTell(raw: Raw, inode: Option<nat>, bytes: Option<Raw>, node: Option<nat>)
    ensures InTurn([SawBytes(Backup, bytes), SawBytes(Primary, Some(raw))], BackupLooks(raw, inode, bytes, node))
    ensures Replacements(BackupLooks(raw, inode, bytes, node)) == []
  {
    var first := [SawInode(Backup, node), SawBytes(Backup, bytes)] + Sight(Backup, bytes, node, true);
    var second := Sight(Primary, Some(raw), inode, true);
    assert InTurn([SawBytes(Backup, bytes)], first) && InTurn([SawBytes(Primary, Some(raw))], second);
    InTurnConcat([SawBytes(Backup, bytes)], [SawBytes(Primary, Some(raw))], first, second);
    LookingReplacesNothing(BackupLooks(raw, inode, bytes, node));
  }

  lemma WriteTells(part: seq<Event>, encoded: Raw, raw: Option<Raw>, inode: Option<nat>, next: nat)
    requires IsWriteLog(part, encoded, raw, inode, next)
    ensures WriteTold(part, encoded, raw, inode, next)
  {
    if raw.None? {
      FirstTells(encoded, next);
    } else {
      var bytes, node :| RolledOver(part, encoded, raw.value, inode, bytes, node, next);
      RollingTells(encoded, raw.value, inode, bytes, node, next);
    }
  }

  /** The primary was read and found unchanged. */
  predicate LoadTold(looks: seq<Event>, raw: Option<Raw>, inode: Option<nat>) {
    InTurn([SawInode(Primary, inode), SawBytes(Primary, raw), SawBytes(Primary, raw)], looks)
      && Replacements(looks) == []
  }

  lemma LoadTells(raw: Option<Raw>, inode: Option<nat>)
    ensures LoadTold(LoadLooks(raw, inode), raw, inode)
  {
    var first := [SawInode(Primary, inode), SawBytes(Primary, raw)];
    var rest := (if raw.None? then [SawBytes(Backup, None)] else []) + Sight(Primary, raw, inode, true);
    InTurnSelf(first);
    assert InTurn([SawBytes(Primary, raw)], rest);
    InTurnConcat(first, [SawBytes(Primary, raw)], first, rest);
    assert LoadLooks(raw, inode) == first + rest;
    assert first + [SawBytes(Primary, raw)]
        == [SawInode(Primary, inode), SawBytes(Primary, raw), SawBytes(Primary, raw)];
    LookingReplacesNothing(LoadLooks(raw, inode));
  }

  lemma MutationTells(part: seq<Event>, raw: Option<Raw>, inode: Option<nat>, entries: Entries, next: nat)
    returns (looks: seq<Event>, write: seq<Event>)
    requires Readable(raw) && IsMutationLog(part, raw, inode, entries, next)
    ensures part == looks + write && LoadTold(looks, raw, inode)
    ensures WriteTold(write, Encode(Payload(StartingFrom(raw).generation + 1, entries)), raw, inode, next)
  {
    looks := LoadLooks(raw, inode);
    write :| part == looks + write
      && IsWriteLog(write, Encode(Payload(StartingFrom(raw).generation + 1, entries)), raw, inode, next);
    LoadTells(raw, inode);
    WriteTells(write, Encode(Payload(StartingFrom(raw).generation + 1, entries)), raw, inode, next);
  }

  /** What a completed save tells: the primary was read, decoded and unchanged; then its entries with this one set, one
      generation on, were written as a first or a rolling write must be. */
  lemma SaveTells(part: seq<Event>, key: Book, snapshot: Snapshot, next: nat)
    returns (raw: Option<Raw>, inode: Option<nat>, looks: seq<Event>, write: seq<Event>)
    requires IsSaveLog(part, key, snapshot, next)
    ensures part == looks + write && LoadTold(looks, raw, inode)
    ensures Readable(raw)
    ensures var p := StartingFrom(raw);
      WriteTold(write, Encode(Payload(p.generation + 1, p.entries[key := snapshot])), raw, inode, next)
  {
    raw, inode :| SavedOver(part, raw, inode, key, snapshot, next);
    looks, write := MutationTells(part, raw, inode, StartingFrom(raw).entries[key := snapshot], next);
  }

  /** And a completed remove likewise, of the entries without this one. */
  lemma RemoveTells(part: seq<Event>, key: Book, next: nat)
    returns (raw: Option<Raw>, inode: Option<nat>, looks: seq<Event>, write: seq<Event>)
    requires IsRemoveLog(part, key, next)
    ensures part == looks + write && LoadTold(looks, raw, inode)
    ensures Readable(raw) && key in StartingFrom(raw).entries
    ensures var p := StartingFrom(raw);
      WriteTold(write, Encode(Payload(p.generation + 1, p.entries - {key})), raw, inode, next)
  {
    raw, inode :| RemovedOver(part, raw, inode, key, next);
    looks, write := MutationTells(part, raw, inode, StartingFrom(raw).entries - {key}, next);
  }

  /** A completed recovery: a backup read and decoded became the primary, over one absent or corrupt, under that
      backup. */
  lemma RecoveryTells(part: seq<Event>, next: nat)
    returns (raw: Option<Raw>, inode: Option<nat>, bytes: Raw, node: Option<nat>)
    requires IsRecoveryLog(part, next)
    ensures (raw.Some? ==> Decode(raw.value).Corrupt?) && Decode(bytes).Good?
    ensures InTurn([SawBytes(Primary, raw), SawBytes(Backup, Some(bytes)), SawBytes(Primary, raw)]
                   + Story(Terms(Primary, bytes, raw, inode, Some(bytes), node, false), next), part)
    ensures Replacements(part) == [Primary]
  {
    raw, inode, bytes, node :| (raw.Some? ==> Decode(raw.value).Corrupt?) && Decode(bytes).Good?
      && part == RecoveryLooks(raw, inode, bytes, node) + ConfirmedLog(RecoveryTerms(raw, inode, bytes, node), next);
    var t := Terms(Primary, bytes, raw, inode, Some(bytes), node, false);
    RecoveryLooksTell(raw, inode, bytes, node);
    hide RecoveryLooks, ConfirmedLog, Story, Decode;
    ConfirmedTells(t, next);
    var looks := RecoveryLooks(raw, inode, bytes, node);
    ReplacementsConcat(looks, ConfirmedLog(t, next));
    InTurnConcat([SawBytes(Primary, raw), SawBytes(Backup, Some(bytes)), SawBytes(Primary, raw)], Story(t, next),
                 looks, ConfirmedLog(t, next));
  }

  lemma RecoveryLooksTell(raw: Option<Raw>, inode: Option<nat>, bytes: Raw, node: Option<nat>)
    ensures InTurn([SawBytes(Primary, raw), SawBytes(Backup, Some(bytes)), SawBytes(Primary, raw)],
                   RecoveryLooks(raw, inode, bytes, node))
    ensures Replacements(RecoveryLooks(raw, inode, bytes, node)) == []
  {
    var first := [SawInode(Primary, inode), SawBytes(Primary, raw)] + Sight(Primary, raw, inode, true);
    var second := BackupReadLooks(bytes, node);
    assert InTurn([SawBytes(Primary, raw)], first) && InTurn([SawBytes(Backup, Some(bytes))], second);
    InTurnConcat([SawBytes(Primary, raw)], [SawBytes(Backup, Some(bytes))], first, second);
    InTurnSelf([SawBytes(Primary, raw)]);
    var last := [SawBytes(Primary, raw)];
    InTurnConcat([SawBytes(Primary, raw)] + [SawBytes(Backup, Some(bytes))], last, first + second, last);
    assert [SawBytes(Primary, raw)] + [SawBytes(Backup, Some(bytes))] + last
        == [SawBytes(Primary, raw), SawBytes(Backup, Some(bytes)), SawBytes(Primary, raw)];
    assert RecoveryLooks(raw, inode, bytes, node) == first + second + last;
    LookingReplacesNothing(RecoveryLooks(raw, inode, bytes, node));
  }

  /** A publication that replaced its target shows it. */
  lemma ReplacedOnce(part: seq<Event>, t: Terms, inode: nat)
    requires ReplacedLog(part, t, inode)
    ensures !Untouched(part, t.target)
  {
    hide UpToReplace;
    assert part[..|UpToReplace(t, inode)| + 1][|UpToReplace(t, inode)|] == Replaced(t.target);
  }

  lemma RollingJoined(a: seq<Event>, b: seq<Event>, c: seq<Event>, d: seq<Event>, e: seq<Event>, encoded: Raw, raw: Raw,
                      inode: Option<nat>, bytes: Option<Raw>, node: Option<nat>, rolled: nat, last: nat)
    requires b == a + BackupLooks(raw, inode, bytes, node)
      && c == b + ConfirmedLog(RollTerms(raw, inode, bytes, node), rolled)
    requires d == c + Sight(Primary, Some(raw), inode, true)
      && e == d + ConfirmedLog(NextTerms(encoded, raw, inode, rolled), last)
    requires BackupCheck(raw, bytes).None? && last == rolled + 1
    ensures IsRollingLog(e[|a|..], encoded, raw, inode, rolled)
  {
    hide BackupLooks, ConfirmedLog, Sight, BackupCheck;
    assert e[|a|..] == RollingLog(encoded, raw, inode, bytes, node, rolled, last);
    assert RolledOver(e[|a|..], encoded, raw, inode, bytes, node, rolled);
  }

  lemma MutationJoined(a: seq<Event>, b: seq<Event>, c: seq<Event>, raw: Option<Raw>, inode: Option<nat>,
                       entries: Entries, next: nat)
    requires Readable(raw) && b == a + LoadLooks(raw, inode) && Extends(b, c)
    ensures IsWriteLog(c[|b|..], Encode(Payload(StartingFrom(raw).generation + 1, entries)), raw, inode, next) ==>
      IsMutationLog(c[|a|..], raw, inode, entries, next)
  {
    hide LoadLooks, IsWriteLog;
    assert c[|a|..] == LoadLooks(raw, inode) + c[|b|..];
  }

  lemma JoinLogs(a: seq<Event>, b: seq<Event>, c: seq<Event>)
    requires Extends(a, b) && Extends(b, c)
    ensures Extends(a, c) && c[|a|..] == b[|a|..] + c[|b|..]
  {
  }

  lemma UntouchedTwice(a: seq<Event>, b: seq<Event>, c: seq<Event>, path: Path)
    requires Extends(a, b) && Extends(b, c) && Untouched(b[|a|..], path) && Untouched(c[|b|..], path)
    ensures Extends(a, c) && Untouched(c[|a|..], path)
  {
    JoinLogs(a, b, c);
  }
}
