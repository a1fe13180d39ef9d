/** The request log and its one-time move (`request_log.rs`, `request_log_layout.rs`):
    readers lock and use the journal while preparers exchange its directory with a marker.
    Processes interleave between any two steps below, and may fail or crash at each. */
module Migration {
  import opened Basics

  // ---- Files ----------------------------------------------------------------

  datatype Entry = Absent | DirAt(dir: nat) | MarkerAt(inode: nat)

  /** A directory's `lock` and `.layout` inodes, its keyed entries, and temporary files
      not yet renamed into place or left by a crash. */
  datatype Dir = Dir(lock: Option<nat>, ledger: Option<nat>, entries: map<string, string>, temps: set<nat>)

  const NEW_DIR := Dir(None, None, map[], {})

  /** The two paths: in Git metadata, and in the shared state the marker points to. */
  datatype Root = Legacy | Shared

  /** A marker file this process holds open; an armed one is removed if preparation fails. */
  datatype Owned = Owned(inode: nat, armed: bool)

  // ---- Processes ------------------------------------------------------------

  /** Where a process is. The `turn` of a reader counts its finished loop iterations. */
  datatype Pc =
    | Idle
      // request_log
    | Locate(turn: nat)
    | MakeDir(turn: nat, root: Root)
    | OpenLock(turn: nat, root: Root)
    | WaitLock(turn: nat, root: Root, inode: nat)
    | Recheck(turn: nat, root: Root, inode: nat)
    | RecheckFailed(turn: nat, root: Root)
    | SameLock(turn: nat, root: Root, inode: nat)
    | Live(root: Root, inode: nat)
    | Saving(root: Root, inode: nat, temp: nat, key: string, value: string)
      // prepare_with_exchange
    | Look
    | CheckTarget
    | CheckLog
    | MakeLegacy
    | OpenLegacyLock
    | WaitLegacyLock(inode: nat)
    | Confirm(inode: nat)
    | Verify(inode: nat)
    | ClearTarget(inode: nat)
    | MakeLedger(inode: nat)
    | WriteLedger(inode: nat, temp: nat)
    | MakeStage(inode: nat, ledger: Owned)
    | Swap(inode: nat, ledger: Owned, stage: Owned)
    | UndoStage(inode: nat, ledger: Owned, stage: Owned)
    | UndoLedger(inode: nat, ledger: Owned)
    | Report(inode: nat)
    | OpenSharedLock
    | WaitSharedLock(inode: nat)

  /** `holders` are the flocks; numbers from `unused` up are unused. `saved` and `moves`
      record history: what every save put into place, and how often the exchange happened. */
  datatype State = State(
    legacy: Entry, shared: Entry, dirs: map<nat, Dir>, holders: map<nat, nat>, procs: map<nat, Pc>, unused: nat,
    saved: map<string, string>, moves: nat)

  function At(s: State, root: Root): Entry {
    if root == Legacy then s.legacy else s.shared
  }

  predicate IsDir(s: State, entry: Entry) {
    entry.DirAt? && entry.dir in s.dirs
  }

  // ---- What location says ---------------------------------------------------

  /** `location`: the marker sends everyone to the shared path. */
  function RootOf(s: State): Root {
    if s.legacy.MarkerAt? then Shared else Legacy
  }

  /** When `location` does not refuse: a marked layout has its directory and ledger. */
  predicate Located(s: State) {
    s.legacy.MarkerAt? ==> IsDir(s, s.shared) && s.dirs[s.shared.dir].ledger.Some?
  }

  /** `check_destination`: nothing, a marker, or an empty directory. */
  predicate TargetOk(s: State) {
    s.shared.DirAt? ==> IsDir(s, s.shared) && s.dirs[s.shared.dir] == NEW_DIR
  }

  /** `check_entries`: only the lock, the ledger and keyed entries. */
  predicate LogOk(s: State) {
    IsDir(s, s.legacy) && s.dirs[s.legacy.dir].temps == {}
  }

  predicate LockIs(s: State, entry: Entry, inode: nat) {
    IsDir(s, entry) && s.dirs[entry.dir].lock == Some(inode)
  }

  // ---- Steps ----------------------------------------------------------------

  function Go(s: State, p: nat, pc: Pc): State {
    s.(procs := s.procs[p := pc])
  }

  /** Leave, closing the lock file and so releasing the lock. */
  function Leave(s: State, p: nat, pc: Pc): State {
    Go(s, p, pc).(holders := map i | i in s.holders && s.holders[i] != p :: s.holders[i])
  }

  function Acquire(s: State, p: nat, inode: nat, pc: Pc): State {
    if inode in s.holders then s else Go(s, p, pc).(holders := s.holders[inode := p])
  }

  function SetDir(s: State, d: nat, dir: Dir): State {
    s.(dirs := s.dirs[d := dir])
  }

  function Create(s: State): State {
    s.(legacy := DirAt(s.unused), dirs := s.dirs[s.unused := NEW_DIR], unused := s.unused + 1)
  }

  /** Open a directory's lock file, creating it if it is not there. */
  function OpenIn(s: State, d: nat): (State, nat)
    requires d in s.dirs
  {
    match s.dirs[d].lock
    case Some(inode) => (s, inode)
    case None => (SetDir(s, d, s.dirs[d].(lock := Some(s.unused))).(unused := s.unused + 1), s.unused)
  }

  /** A reader's next step, or a save's last. A step that needs the lock waits while another has it. */
  function ReaderStep(s: State, p: nat): State
    requires p in s.procs
  {
    match s.procs[p]
    case Locate(turn) =>
      if Located(s) then Go(s, p, MakeDir(turn, RootOf(s))) else Go(s, p, Idle)
    case MakeDir(turn, root) =>
      if At(s, root).MarkerAt? then Go(s, p, RecheckFailed(turn, root))
      else if root == Legacy && s.legacy.Absent? then Go(Create(s), p, OpenLock(turn, root))
      else Go(s, p, OpenLock(turn, root))
    case OpenLock(turn, root) =>
      if IsDir(s, At(s, root)) then
        var (t, inode) := OpenIn(s, At(s, root).dir);
        Go(t, p, WaitLock(turn, root, inode))
      else Go(s, p, RecheckFailed(turn, root))
    case WaitLock(turn, root, inode) => Acquire(s, p, inode, Recheck(turn, root, inode))
    case Recheck(turn, root, inode) =>
      if !Located(s) then Leave(s, p, Idle)
      else if RootOf(s) != root then Leave(s, p, Locate(turn + 1))
      else Go(s, p, SameLock(turn, root, inode))
    case RecheckFailed(turn, root) =>
      if Located(s) && RootOf(s) != root then Go(s, p, Locate(turn + 1)) else Go(s, p, Idle)
    case SameLock(_, root, inode) =>
      if LockIs(s, At(s, root), inode) then Go(s, p, Live(root, inode)) else Leave(s, p, Idle)
    case Saving(root, inode, temp, key, value) =>
      if IsDir(s, At(s, root)) then
        var d := At(s, root).dir;
        Go(SetDir(s, d, s.dirs[d].(entries := s.dirs[d].entries[key := value], temps := s.dirs[d].temps - {temp})),
           p, Live(root, inode)).(saved := s.saved[key := value])
      else Go(s, p, Live(root, inode))
    case _ => s
  }

  /** A preparer's next step. A marker that is already there is kept as it is. */
  function PreparerStep(s: State, p: nat): State
    requires p in s.procs
  {
    match s.procs[p]
    case Look =>
      if !Located(s) then Go(s, p, Idle)
      else if s.legacy.MarkerAt? then Go(s, p, OpenSharedLock)
      else Go(s, p, CheckTarget)
    case CheckTarget => Go(s, p, if TargetOk(s) then CheckLog else Idle)
    case CheckLog => Go(s, p, if s.legacy.Absent? || LogOk(s) then MakeLegacy else Idle)
    case MakeLegacy =>
      if s.legacy.Absent? then Go(Create(s), p, OpenLegacyLock)
      else Go(s, p, if s.legacy.DirAt? then OpenLegacyLock else Idle)
    case OpenLegacyLock =>
      if IsDir(s, s.legacy) then
        var (t, inode) := OpenIn(s, s.legacy.dir);
        Go(t, p, WaitLegacyLock(inode))
      else Go(s, p, Idle)
    case WaitLegacyLock(inode) => Acquire(s, p, inode, Confirm(inode))
    case Confirm(inode) =>
      if !Located(s) || s.legacy.MarkerAt? then Leave(s, p, Idle) else Go(s, p, Verify(inode))
    case Verify(inode) =>
      if LogOk(s) && TargetOk(s) && LockIs(s, s.legacy, inode) then Go(s, p, ClearTarget(inode)) else Leave(s, p, Idle)
    case ClearTarget(inode) =>
      if !s.shared.DirAt? then Go(s, p, MakeLedger(inode))
      else if TargetOk(s) then Go(s.(shared := Absent, dirs := s.dirs - {s.shared.dir}), p, MakeLedger(inode))
      else Leave(s, p, Idle)
    case MakeLedger(inode) =>
      if !IsDir(s, s.legacy) then Leave(s, p, Idle)
      else
        var dir := s.dirs[s.legacy.dir];
        if dir.ledger.Some? then Go(s, p, MakeStage(inode, Owned(dir.ledger.value, false)))
        else Go(SetDir(s, s.legacy.dir, dir.(temps := dir.temps + {s.unused})), p, WriteLedger(inode, s.unused))
             .(unused := s.unused + 1)
    case WriteLedger(inode, temp) =>
      if !IsDir(s, s.legacy) then Leave(s, p, Idle)
      else
        var dir := s.dirs[s.legacy.dir];
        var written := dir.(temps := dir.temps - {temp});
        if dir.ledger.Some? then Leave(SetDir(s, s.legacy.dir, written), p, Idle)
        else Go(SetDir(s, s.legacy.dir, written.(ledger := Some(temp))), p, MakeStage(inode, Owned(temp, true)))
    case MakeStage(inode, ledger) =>
      (match s.shared
       case Absent => Go(s.(shared := MarkerAt(s.unused), unused := s.unused + 1),
                         p, Swap(inode, ledger, Owned(s.unused, true)))
       case MarkerAt(m) => Go(s, p, Swap(inode, ledger, Owned(m, false)))
       case DirAt(_) => Go(s, p, UndoLedger(inode, ledger)))
    case Swap(inode, ledger, stage) =>
      if s.legacy.Absent? || s.shared.Absent? then Go(s, p, UndoStage(inode, ledger, stage))
      else Go(s.(legacy := s.shared, shared := s.legacy, moves := s.moves + 1), p, Report(inode))
    case UndoStage(inode, ledger, stage) =>
      if stage.armed && s.shared == MarkerAt(stage.inode) then Go(s.(shared := Absent), p, UndoLedger(inode, ledger))
      else Go(s, p, UndoLedger(inode, ledger))
    case UndoLedger(inode, ledger) =>
      if ledger.armed && IsDir(s, s.legacy) && s.dirs[s.legacy.dir].ledger == Some(ledger.inode) then
        Leave(SetDir(s, s.legacy.dir, s.dirs[s.legacy.dir].(ledger := None)), p, Idle)
      else Leave(s, p, Idle)
    case Report(_) => Leave(s, p, Idle)
    case OpenSharedLock =>
      if IsDir(s, s.shared) then
        var (t, inode) := OpenIn(s, s.shared.dir);
        Go(t, p, WaitSharedLock(inode))
      else Go(s, p, Idle)
    case WaitSharedLock(inode) => Acquire(s, p, inode, Report(inode))
    case _ => s
  }

  /** An operation's error: the step's own clean-up runs, then its caller's. */
  function FailStep(s: State, p: nat): State
    requires p in s.procs
  {
    match s.procs[p]
    case MakeDir(turn, root) => Go(s, p, RecheckFailed(turn, root))
    case OpenLock(turn, root) => Go(s, p, RecheckFailed(turn, root))
    case WaitLock(turn, root, _) => Go(s, p, RecheckFailed(turn, root))
    case Saving(root, inode, temp, _, _) => Go(DropTemp(s, At(s, root), temp), p, Live(root, inode))
    case WriteLedger(_, temp) => Leave(DropTemp(s, s.legacy, temp), p, Idle)
    case MakeStage(inode, ledger) => Go(s, p, UndoLedger(inode, ledger))
    case Swap(inode, ledger, stage) => Go(s, p, UndoStage(inode, ledger, stage))
    case UndoStage(inode, ledger, _) => Go(s, p, UndoLedger(inode, ledger))
    case _ => Leave(s, p, Idle)
  }

  /** A file is published and then its directory does not sync: the step fails with the file
      in place. A new marker or ledger then has no owner to take it away again. */
  function UnsyncedStep(s: State, p: nat): State
    requires p in s.procs
  {
    match s.procs[p]
    case Saving(_, _, _, _, _) => ReaderStep(s, p)
    case WriteLedger(_, temp) =>
      if IsDir(s, s.legacy) && s.dirs[s.legacy.dir].ledger.None? then
        var dir := s.dirs[s.legacy.dir];
        Leave(SetDir(s, s.legacy.dir, dir.(temps := dir.temps - {temp}, ledger := Some(temp))), p, Idle)
      else FailStep(s, p)
    case MakeStage(inode, ledger) =>
      if s.shared.Absent? then
        Go(s.(shared := MarkerAt(s.unused), unused := s.unused + 1), p, UndoLedger(inode, ledger))
      else FailStep(s, p)
    case _ => FailStep(s, p)
  }

  function DropTemp(s: State, entry: Entry, temp: nat): State {
    if IsDir(s, entry) then SetDir(s, entry.dir, s.dirs[entry.dir].(temps := s.dirs[entry.dir].temps - {temp})) else s
  }

  /** A saver with its handle creates a temporary file beside the entries. */
  function BeginSave(s: State, p: nat, key: string, value: string): State
    requires p in s.procs && s.procs[p].Live?
  {
    var Live(root, inode) := s.procs[p];
    if IsDir(s, At(s, root)) then
      var d := At(s, root).dir;
      Go(SetDir(s, d, s.dirs[d].(temps := s.dirs[d].temps + {s.unused})),
         p, Saving(root, inode, s.unused, key, value)).(unused := s.unused + 1)
    else s
  }

  datatype Event =
    | Opened(p: nat)
    | Prepared(p: nat)
    | Read(p: nat)
    | Moved(p: nat)
    | Failed(p: nat)
    | Unsynced(p: nat)
    | Crashed(p: nat)
    | Saved(p: nat, key: string, value: string)
    | Mounted

  /** What happens next: a process starts, takes a step, fails or dies, a live handle saves
      or is dropped, or the host makes an empty directory where the shared state will go. */
  predicate Next(s: State, event: Event, t: State) {
    match event
    case Opened(p) => (p in s.procs ==> s.procs[p].Idle?) && t == Go(s, p, Locate(0))
    case Prepared(p) => (p in s.procs ==> s.procs[p].Idle?) && t == Go(s, p, Look)
    case Read(p) => p in s.procs && t == ReaderStep(s, p)
    case Moved(p) => p in s.procs && t == PreparerStep(s, p)
    case Failed(p) => p in s.procs && t == FailStep(s, p)
    case Unsynced(p) => p in s.procs && t == UnsyncedStep(s, p)
    case Crashed(p) => p in s.procs && t == Leave(s, p, Idle)
    case Saved(p, key, value) => p in s.procs && s.procs[p].Live? && t == BeginSave(s, p, key, value)
    case Mounted =>
      && s.shared.Absent?
      && t == s.(shared := DirAt(s.unused), dirs := s.dirs[s.unused := NEW_DIR], unused := s.unused + 1)
  }
}
