/** Why the request log survives its move: one lock, one live handle, nothing lost. */
module LogSafety {
  import opened Basics
  import opened Migration

  // ---- The invariant --------------------------------------------------------

  /** The journal's directory, wherever it is. */
  function Log(s: State): Option<nat> {
    match At(s, RootOf(s))
    case DirAt(d) => Some(d)
    case _ => None
  }

  predicate LogLock(s: State, inode: nat) {
    Log(s).Some? && Log(s).value in s.dirs && s.dirs[Log(s).value].lock == Some(inode)
  }

  predicate LogLedger(s: State, inode: nat) {
    Log(s).Some? && Log(s).value in s.dirs && s.dirs[Log(s).value].ledger == Some(inode)
  }

  /** The journal is in one directory, with exactly what was saved; it moved at most once. */
  predicate FilesOk(s: State) {
    && (forall d | d in s.dirs :: d < s.unused)
    && s.moves == (if s.legacy.MarkerAt? then 1 else 0)
    && (Log(s).Some? ==> Log(s).value in s.dirs && s.dirs[Log(s).value].entries == s.saved)
    && (s.legacy.Absent? ==> !s.shared.MarkerAt? && s.saved == map[])
    && (s.legacy.DirAt? && s.shared.DirAt? ==> s.shared.dir != s.legacy.dir)
    && (!s.legacy.MarkerAt? ==> TargetOk(s))
    && Located(s)
  }

  function LockOf(pc: Pc): Option<nat> {
    match pc
    case WaitLock(_, _, inode) => Some(inode)
    case Recheck(_, _, inode) => Some(inode)
    case SameLock(_, _, inode) => Some(inode)
    case Live(_, inode) => Some(inode)
    case Saving(_, inode, _, _, _) => Some(inode)
    case WaitLegacyLock(inode) => Some(inode)
    case Confirm(inode) => Some(inode)
    case Verify(inode) => Some(inode)
    case ClearTarget(inode) => Some(inode)
    case MakeLedger(inode) => Some(inode)
    case WriteLedger(inode, _) => Some(inode)
    case MakeStage(inode, _) => Some(inode)
    case Swap(inode, _, _) => Some(inode)
    case UndoStage(inode, _, _) => Some(inode)
    case UndoLedger(inode, _) => Some(inode)
    case Report(inode) => Some(inode)
    case WaitSharedLock(inode) => Some(inode)
    case _ => None
  }

  predicate Waits(pc: Pc) {
    pc.WaitLock? || pc.WaitLegacyLock? || pc.WaitSharedLock?
  }

  predicate Holds(pc: Pc) {
    LockOf(pc).Some? && !Waits(pc)
  }

  /** A reader goes round again only because the layout moved, and then looks in its new place. */
  predicate TurnOk(s: State, turn: nat, root: Root) {
    (root == Shared ==> s.legacy.MarkerAt?) && turn <= 1 && (turn == 1 ==> root == Shared)
  }

  /** What a process knows without the lock, and keeps knowing whatever others do. */
  predicate Informed(s: State, pc: Pc) {
    && (LockOf(pc).Some? ==> LogLock(s, LockOf(pc).value))
    && match pc
       case Locate(turn) => turn == 0 || (turn == 1 && s.legacy.MarkerAt?)
       case MakeDir(turn, root) => TurnOk(s, turn, root)
       case OpenLock(turn, root) => TurnOk(s, turn, root)
       case WaitLock(turn, root, _) => TurnOk(s, turn, root)
       case Recheck(turn, root, _) => TurnOk(s, turn, root)
       case RecheckFailed(turn, root) => TurnOk(s, turn, root)
       case SameLock(turn, root, _) => TurnOk(s, turn, root)
       case OpenSharedLock => s.legacy.MarkerAt?
       case _ => true
  }

  /** What a process knows because it holds the lock. */
  predicate Assured(s: State, pc: Pc) {
    match pc
    case SameLock(_, root, _) => root == RootOf(s)
    case Live(root, _) => root == RootOf(s)
    case Saving(root, _, _, _, _) => root == RootOf(s)
    case Verify(_) => s.legacy.DirAt?
    case ClearTarget(_) => s.legacy.DirAt?
    case MakeLedger(_) => s.legacy.DirAt?
    case WriteLedger(_, _) => s.legacy.DirAt?
    case MakeStage(_, ledger) => s.legacy.DirAt? && LogLedger(s, ledger.inode)
    case Swap(_, ledger, stage) => s.legacy.DirAt? && LogLedger(s, ledger.inode) && s.shared == MarkerAt(stage.inode)
    case UndoStage(_, ledger, _) => s.legacy.DirAt? && LogLedger(s, ledger.inode)
    case UndoLedger(_, ledger) => s.legacy.DirAt? && LogLedger(s, ledger.inode)
    case _ => true
  }

  predicate PcOk(s: State, p: nat)
    requires p in s.procs
  {
    && Informed(s, s.procs[p]) && Assured(s, s.procs[p])
    && (Holds(s.procs[p]) ==> LockOf(s.procs[p]).value in s.holders && s.holders[LockOf(s.procs[p]).value] == p)
  }

  predicate HoldersOk(s: State) {
    forall i | i in s.holders :: s.holders[i] in s.procs && LockOf(s.procs[s.holders[i]]) == Some(i)
      && Holds(s.procs[s.holders[i]])
  }

  predicate Inv(s: State) {
    FilesOk(s) && HoldersOk(s) && forall p | p in s.procs :: PcOk(s, p)
  }

  // ---- It is inductive ------------------------------------------------------

  /** What no step undoes: the layout only moves forward, and the journal keeps its
      directory and its lock. */
  ghost predicate Onward(s: State, t: State) {
    && (s.legacy.MarkerAt? ==> t.legacy.MarkerAt?)
    && (Log(s).Some? ==> Log(t) == Log(s))
    && (forall inode | LogLock(s, inode) :: LogLock(t, inode))
  }

  /** What a step without the lock leaves alone once there is a journal. */
  ghost predicate Steady(s: State, t: State) {
    && t.legacy == s.legacy && (s.shared.MarkerAt? ==> t.shared == s.shared)
    && (forall inode | LogLedger(s, inode) :: LogLedger(t, inode))
  }

  lemma OthersStayInformed(s: State, t: State, pc: Pc)
    requires Onward(s, t) && Informed(s, pc)
    ensures Informed(t, pc)
  {
  }

  lemma OthersStayAssured(s: State, t: State, pc: Pc)
    requires Onward(s, t) && Steady(s, t) && Assured(s, pc)
    ensures Assured(t, pc)
  {
  }

  /** At most one process holds the journal's lock. */
  lemma OneHolder(s: State, p: nat, q: nat)
    requires Inv(s) && p in s.procs && q in s.procs && Holds(s.procs[p]) && Holds(s.procs[q])
    ensures p == q
  {
    assert PcOk(s, p) && PcOk(s, q);
  }

  // How each change of the files keeps them in order.

  lemma CreateKeeps(s: State)
    requires FilesOk(s) && s.legacy.Absent?
    ensures FilesOk(Create(s)) && Onward(s, Create(s)) && Log(s).None?
  {
  }

  lemma OpenKeeps(s: State, d: nat)
    requires FilesOk(s) && Log(s) == Some(d)
    ensures d in s.dirs
    ensures var (t, inode) := OpenIn(s, d); FilesOk(t) && Onward(s, t) && Steady(s, t) && LogLock(t, inode)
  {
  }

  lemma TempsKeep(s: State, temps: set<nat>, more: nat)
    requires FilesOk(s) && Log(s).Some?
    ensures var d := Log(s).value;
            && d in s.dirs
            && var t := SetDir(s, d, s.dirs[d].(temps := temps)).(unused := s.unused + more);
            FilesOk(t) && Onward(s, t) && Steady(s, t)
  {
  }

  lemma SaveKeeps(s: State, key: string, value: string, temps: set<nat>)
    requires FilesOk(s) && Log(s).Some?
    ensures var d := Log(s).value;
            && d in s.dirs
            && var t := SetDir(s, d, s.dirs[d].(entries := s.dirs[d].entries[key := value], temps := temps))
                           .(saved := s.saved[key := value]);
            FilesOk(t) && Onward(s, t) && Steady(s, t)
  {
  }

  lemma ClearKeeps(s: State)
    requires FilesOk(s) && s.legacy.DirAt? && s.shared.DirAt?
    ensures var t := s.(shared := Absent, dirs := s.dirs - {s.shared.dir}); FilesOk(t) && Onward(s, t)
  {
  }

  lemma LedgerKeeps(s: State, ledger: Option<nat>, temps: set<nat>)
    requires FilesOk(s) && s.legacy.DirAt?
    ensures var d := s.legacy.dir;
            && d in s.dirs
            && var t := SetDir(s, d, s.dirs[d].(ledger := ledger, temps := temps));
            FilesOk(t) && Onward(s, t) && (ledger.Some? ==> LogLedger(t, ledger.value))
  {
  }

  lemma StageKeeps(s: State, stage: Entry, unused: nat)
    requires FilesOk(s) && s.legacy.DirAt? && !s.shared.DirAt? && !stage.DirAt? && s.unused <= unused
    ensures var t := s.(shared := stage, unused := unused);
            FilesOk(t) && Onward(s, t) && forall inode | LogLedger(s, inode) :: LogLedger(t, inode)
  {
  }

  lemma SwapKeeps(s: State, ledger: nat)
    requires FilesOk(s) && s.legacy.DirAt? && s.shared.MarkerAt? && LogLedger(s, ledger)
    ensures var t := s.(legacy := s.shared, shared := s.legacy, moves := s.moves + 1); FilesOk(t) && Onward(s, t)
  {
  }

  lemma MountKeeps(s: State)
    requires FilesOk(s) && s.shared.Absent?
    ensures var t := s.(shared := DirAt(s.unused), dirs := s.dirs[s.unused := NEW_DIR], unused := s.unused + 1);
            FilesOk(t) && Onward(s, t) && Steady(s, t)
  {
  }

  lemma NothingChanges(s: State)
    ensures Onward(s, s) && Steady(s, s)
  {
  }

  // How a process's move keeps everyone in order.

  predicate HoldsNow(s: State, p: nat) {
    p in s.procs && Holds(s.procs[p])
  }

  ghost predicate Moves(s: State, u: State, p: nat) {
    && Inv(s) && u.procs == s.procs && u.holders == s.holders
    && FilesOk(u) && Onward(s, u) && (HoldsNow(s, p) || Log(s).None? || Steady(s, u))
  }

  lemma OthersAreOk(s: State, u: State, t: State, p: nat, q: nat)
    requires Moves(s, u, p) && q in s.procs && q != p && q in t.procs && t.procs[q] == s.procs[q]
    requires t == u.(procs := t.procs, holders := t.holders)
    requires forall i | i in s.holders && s.holders[i] == q :: i in t.holders && t.holders[i] == q
    ensures PcOk(t, q)
  {
    hide FilesOk, Informed, Assured, Onward, Steady;
    assert PcOk(s, q);
    var pc := s.procs[q];
    OthersStayInformed(s, u, pc);
    SameFiles(u, t, pc);
    if Holds(pc) {
      HolderHasLog(s, q);
      if HoldsNow(s, p) { OneHolder(s, p, q); }
      OthersStayAssured(s, u, pc);
    } else {
      NothingAssured(t, pc);
    }
  }

  lemma SameFiles(u: State, t: State, pc: Pc)
    requires t == u.(procs := t.procs, holders := t.holders)
    ensures Informed(t, pc) == Informed(u, pc) && Assured(t, pc) == Assured(u, pc) && FilesOk(t) == FilesOk(u)
  {
    SameKnown(u, t, pc);
    hide Informed, Assured;
  }

  lemma SameKnown(u: State, t: State, pc: Pc)
    requires t == u.(procs := t.procs, holders := t.holders)
    ensures Informed(t, pc) == Informed(u, pc) && Assured(t, pc) == Assured(u, pc)
  {
    hide FilesOk, IsDir;
  }

  lemma SameFilesOnward(s: State, u: State, t: State)
    requires t == u.(procs := t.procs, holders := t.holders) && Onward(s, u)
    ensures Onward(s, t)
  {
  }

  lemma HolderHasLog(s: State, p: nat)
    requires p in s.procs && PcOk(s, p) && Holds(s.procs[p])
    ensures Log(s).Some?
  {
  }

  lemma NothingAssured(s: State, pc: Pc)
    requires !Holds(pc)
    ensures Assured(s, pc)
  {
  }

  /** A process goes on, holding the lock before and after, or neither. */
  lemma GoKeeps(s: State, u: State, p: nat, pc: Pc)
    requires Moves(s, u, p) && Informed(u, pc) && Assured(u, pc)
    requires Holds(pc) <==> HoldsNow(s, p)
    requires Holds(pc) ==> LockOf(pc) == LockOf(s.procs[p])
    ensures Inv(Go(u, p, pc)) && Onward(s, Go(u, p, pc))
  {
    hide FilesOk, Informed, Assured, Onward, Steady;
    var t := Go(u, p, pc);
    SameFiles(u, t, pc);
    SameFilesOnward(s, u, t);
    forall q | q in t.procs ensures PcOk(t, q) {
      if q != p { OthersAreOk(s, u, t, p, q); } else if HoldsNow(s, p) { assert PcOk(s, p); }
    }
    forall i | i in t.holders
      ensures t.holders[i] in t.procs && LockOf(t.procs[t.holders[i]]) == Some(i) && Holds(t.procs[t.holders[i]])
    {
      assert s.holders[i] in s.procs && LockOf(s.procs[s.holders[i]]) == Some(i) && Holds(s.procs[s.holders[i]]);
    }
  }

  /** A process leaves, and the lock with it if it had it. */
  lemma LeaveKeeps(s: State, u: State, p: nat, pc: Pc)
    requires Moves(s, u, p) && Informed(u, pc) && !Holds(pc)
    ensures Inv(Leave(u, p, pc)) && Onward(s, Leave(u, p, pc))
  {
    hide FilesOk, Informed, Assured, Onward, Steady;
    var t := Leave(u, p, pc);
    SameFiles(u, t, pc);
    SameFilesOnward(s, u, t);
    NothingAssured(t, pc);
    forall q | q in t.procs ensures PcOk(t, q) {
      if q != p { OthersAreOk(s, u, t, p, q); }
    }
  }

  /** A waiting process gets a free lock. */
  lemma AcquireKeeps(s: State, p: nat, inode: nat, pc: Pc)
    requires Inv(s) && p in s.procs && LockOf(s.procs[p]) == Some(inode) && Waits(s.procs[p])
    requires Informed(s, pc) && Assured(s, pc) && Holds(pc) && LockOf(pc) == Some(inode)
    ensures Inv(Acquire(s, p, inode, pc)) && Onward(s, Acquire(s, p, inode, pc))
  {
    hide FilesOk, Informed, Assured, Onward, Steady;
    NothingChanges(s);
    var t := Acquire(s, p, inode, pc);
    SameFiles(s, t, pc);
    SameFilesOnward(s, s, t);
    if inode !in s.holders {
      forall q | q in t.procs ensures PcOk(t, q) {
        if q != p { OthersAreOk(s, s, t, p, q); }
      }
    }
  }

  lemma FilesAre(s: State)
    requires Inv(s)
    ensures FilesOk(s)
  {
    hide FilesOk, PcOk, HoldersOk;
  }

  /** What the invariant says of one process. */
  lemma ProcessIs(s: State, p: nat)
    requires Inv(s) && p in s.procs
    ensures FilesOk(s) && Informed(s, s.procs[p]) && Assured(s, s.procs[p])
    ensures Holds(s.procs[p]) ==> Log(s).Some? && LogLock(s, LockOf(s.procs[p]).value)
  {
    hide FilesOk, Assured, HoldersOk;
    assert PcOk(s, p);
  }

  // Readers.

  lemma ReaderKeepsInv(s: State, p: nat)
    requires Inv(s) && p in s.procs
    ensures Inv(ReaderStep(s, p)) && Onward(s, ReaderStep(s, p))
  {
    hide Inv, Onward, Steady, FilesOk;
    NothingChanges(s);
    match s.procs[p] {
      case MakeDir(_, _) => MakeDirKeeps(s, p);
      case OpenLock(_, _) => OpenLockKeeps(s, p);
      case Recheck(_, _, _) => RecheckKeeps(s, p);
      case Saving(_, _, _, _, _) => SavingKeeps(s, p);
      case _ => OtherReaderKeeps(s, p);
    }
  }

  lemma OtherReaderKeeps(s: State, p: nat)
    requires Inv(s) && p in s.procs
    requires var pc := s.procs[p]; !pc.MakeDir? && !pc.OpenLock? && !pc.Recheck? && !pc.Saving?
    ensures Inv(ReaderStep(s, p)) && Onward(s, ReaderStep(s, p))
  {
    hide Inv, Onward, Steady, FilesOk, PcOk;
    NothingChanges(s);
    ProcessIs(s, p);
    match s.procs[p] {
      case Locate(turn) => GoKeeps(s, s, p, if Located(s) then MakeDir(turn, RootOf(s)) else Idle);
      case WaitLock(turn, root, inode) => AcquireKeeps(s, p, inode, Recheck(turn, root, inode));
      case RecheckFailed(turn, root) =>
        GoKeeps(s, s, p, if Located(s) && RootOf(s) != root then Locate(turn + 1) else Idle);
      case SameLock(_, root, inode) =>
        if LockIs(s, At(s, root), inode) { GoKeeps(s, s, p, Live(root, inode)); } else { LeaveKeeps(s, s, p, Idle); }
      case _ =>
    }
  }

  lemma MakeDirKeeps(s: State, p: nat)
    requires Inv(s) && p in s.procs && s.procs[p].MakeDir?
    ensures Inv(ReaderStep(s, p)) && Onward(s, ReaderStep(s, p))
  {
    hide Inv, Onward, Steady, FilesOk, PcOk;
    NothingChanges(s);
    ProcessIs(s, p);
    var MakeDir(turn, root) := s.procs[p];
    if At(s, root).MarkerAt? {
      GoKeeps(s, s, p, RecheckFailed(turn, root));
    } else if root == Legacy && s.legacy.Absent? {
      CreateKeeps(s);
      GoKeeps(s, Create(s), p, OpenLock(turn, root));
    } else {
      GoKeeps(s, s, p, OpenLock(turn, root));
    }
  }

  lemma OpenLockKeeps(s: State, p: nat)
    requires Inv(s) && p in s.procs && s.procs[p].OpenLock?
    ensures Inv(ReaderStep(s, p)) && Onward(s, ReaderStep(s, p))
  {
    hide Inv, Onward, Steady, FilesOk, LogLock, PcOk;
    NothingChanges(s);
    ProcessIs(s, p);
    var OpenLock(turn, root) := s.procs[p];
    if IsDir(s, At(s, root)) {
      OpenKeeps(s, At(s, root).dir);
      var (t, inode) := OpenIn(s, At(s, root).dir);
      GoKeeps(s, t, p, WaitLock(turn, root, inode));
    } else {
      GoKeeps(s, s, p, RecheckFailed(turn, root));
    }
  }

  lemma RecheckKeeps(s: State, p: nat)
    requires Inv(s) && p in s.procs && s.procs[p].Recheck?
    ensures Inv(ReaderStep(s, p)) && Onward(s, ReaderStep(s, p))
  {
    hide Inv, Onward, Steady, FilesOk, LogLock, PcOk;
    NothingChanges(s);
    ProcessIs(s, p);
    var Recheck(turn, root, inode) := s.procs[p];
    if !Located(s) {
      LeaveKeeps(s, s, p, Idle);
    } else if RootOf(s) != root {
      LeaveKeeps(s, s, p, Locate(turn + 1));
    } else {
      GoKeeps(s, s, p, SameLock(turn, root, inode));
    }
  }

  lemma SavingKeeps(s: State, p: nat)
    requires Inv(s) && p in s.procs && s.procs[p].Saving?
    ensures Inv(ReaderStep(s, p)) && Onward(s, ReaderStep(s, p))
  {
    hide Inv, Onward, Steady, FilesOk, LogLock, PcOk;
    NothingChanges(s);
    ProcessIs(s, p);
    var Saving(root, inode, temp, key, value) := s.procs[p];
    if IsDir(s, At(s, root)) {
      var d := At(s, root).dir;
      var temps := s.dirs[d].temps - {temp};
      SaveKeeps(s, key, value, temps);
      var u := SetDir(s, d, s.dirs[d].(entries := s.dirs[d].entries[key := value], temps := temps))
                  .(saved := s.saved[key := value]);
      assert LogLock(u, inode) by { assert LogLock(s, inode); OnwardLock(s, u, inode); }
      GoKeeps(s, u, p, Live(root, inode));
      assert ReaderStep(s, p) == Go(u, p, Live(root, inode));
    } else {
      GoKeeps(s, s, p, Live(root, inode));
    }
  }

  lemma OnwardLock(s: State, t: State, inode: nat)
    requires Onward(s, t) && LogLock(s, inode)
    ensures LogLock(t, inode)
  {
  }

  // Preparers.

  lemma PreparerKeepsInv(s: State, p: nat)
    requires Inv(s) && p in s.procs
    ensures Inv(PreparerStep(s, p)) && Onward(s, PreparerStep(s, p))
  {
    hide Inv, Onward, Steady, FilesOk;
    NothingChanges(s);
    var pc := s.procs[p];
    if pc.Look? || pc.CheckTarget? || pc.CheckLog? || pc.MakeLegacy? || pc.OpenLegacyLock? || pc.OpenSharedLock? {
      UnlockedPreparerKeeps(s, p);
    } else if Waits(pc) || pc.Confirm? || pc.Verify? || pc.Report? {
      CheckingPreparerKeeps(s, p);
    } else if pc.ClearTarget? || pc.MakeLedger? || pc.WriteLedger? {
      LedgerPreparerKeeps(s, p);
    } else {
      StagePreparerKeeps(s, p);
    }
  }

  lemma UnlockedPreparerKeeps(s: State, p: nat)
    requires Inv(s) && p in s.procs
    requires var pc := s.procs[p];
             pc.Look? || pc.CheckTarget? || pc.CheckLog? || pc.MakeLegacy? || pc.OpenLegacyLock? || pc.OpenSharedLock?
    ensures Inv(PreparerStep(s, p)) && Onward(s, PreparerStep(s, p))
  {
    hide Inv, Onward, Steady, FilesOk, LogLock, PcOk;
    NothingChanges(s);
    ProcessIs(s, p);
    match s.procs[p] {
      case Look =>
        GoKeeps(s, s, p, if !Located(s) then Idle else if s.legacy.MarkerAt? then OpenSharedLock else CheckTarget);
      case CheckTarget => GoKeeps(s, s, p, if TargetOk(s) then CheckLog else Idle);
      case CheckLog => GoKeeps(s, s, p, if s.legacy.Absent? || LogOk(s) then MakeLegacy else Idle);
      case MakeLegacy =>
        if s.legacy.Absent? {
          CreateKeeps(s);
          GoKeeps(s, Create(s), p, OpenLegacyLock);
        } else {
          GoKeeps(s, s, p, if s.legacy.DirAt? then OpenLegacyLock else Idle);
        }
      case OpenLegacyLock => OpenAnyKeeps(s, p, s.legacy);
      case OpenSharedLock => OpenAnyKeeps(s, p, s.shared);
    }
  }

  lemma OpenAnyKeeps(s: State, p: nat, entry: Entry)
    requires Inv(s) && p in s.procs && !Holds(s.procs[p])
    requires entry == s.legacy || (entry == s.shared && s.legacy.MarkerAt?)
    ensures IsDir(s, entry) ==>
              var (t, inode) := OpenIn(s, entry.dir);
              && Inv(Go(t, p, WaitLegacyLock(inode))) && Onward(s, Go(t, p, WaitLegacyLock(inode)))
              && Inv(Go(t, p, WaitSharedLock(inode))) && Onward(s, Go(t, p, WaitSharedLock(inode)))
    ensures Inv(Go(s, p, Idle)) && Onward(s, Go(s, p, Idle))
  {
    hide Inv, Onward, Steady, FilesOk, LogLock, PcOk;
    NothingChanges(s);
    FilesAre(s);
    if IsDir(s, entry) {
      OpenKeeps(s, entry.dir);
      var (t, inode) := OpenIn(s, entry.dir);
      GoKeeps(s, t, p, WaitLegacyLock(inode));
      GoKeeps(s, t, p, WaitSharedLock(inode));
    }
    GoKeeps(s, s, p, Idle);
  }

  lemma CheckingPreparerKeeps(s: State, p: nat)
    requires Inv(s) && p in s.procs
    requires var pc := s.procs[p]; Waits(pc) || pc.Confirm? || pc.Verify? || pc.Report?
    ensures Inv(PreparerStep(s, p)) && Onward(s, PreparerStep(s, p))
  {
    hide Inv, Onward, Steady, FilesOk, LogLock, PcOk;
    NothingChanges(s);
    ProcessIs(s, p);
    match s.procs[p] {
      case WaitLegacyLock(inode) => AcquireKeeps(s, p, inode, Confirm(inode));
      case WaitSharedLock(inode) => AcquireKeeps(s, p, inode, Report(inode));
      case Confirm(inode) =>
        if !Located(s) || s.legacy.MarkerAt? {
          LeaveKeeps(s, s, p, Idle);
        } else {
          GoKeeps(s, s, p, Verify(inode));
        }
      case Verify(inode) =>
        if LogOk(s) && TargetOk(s) && LockIs(s, s.legacy, inode) {
          GoKeeps(s, s, p, ClearTarget(inode));
        } else {
          LeaveKeeps(s, s, p, Idle);
        }
      case Report(_) => LeaveKeeps(s, s, p, Idle);
      case _ =>
    }
  }

  lemma LedgerPreparerKeeps(s: State, p: nat)
    requires Inv(s) && p in s.procs
    requires var pc := s.procs[p]; pc.ClearTarget? || pc.MakeLedger? || pc.WriteLedger?
    ensures Inv(PreparerStep(s, p)) && Onward(s, PreparerStep(s, p))
  {
    hide Inv, Onward, Steady, FilesOk, LogLock, PcOk;
    NothingChanges(s);
    ProcessIs(s, p);
    LogIsThere(s);
    match s.procs[p] {
      case ClearTarget(inode) =>
        if !s.shared.DirAt? {
          GoKeeps(s, s, p, MakeLedger(inode));
        } else if TargetOk(s) {
          ClearKeeps(s);
          var u := s.(shared := Absent, dirs := s.dirs - {s.shared.dir});
          OnwardLock(s, u, inode);
          GoKeeps(s, u, p, MakeLedger(inode));
        } else {
          LeaveKeeps(s, s, p, Idle);
        }
      case MakeLedger(inode) =>
        var dir := s.dirs[s.legacy.dir];
        if dir.ledger.Some? {
          GoKeeps(s, s, p, MakeStage(inode, Owned(dir.ledger.value, false)));
        } else {
          TempsKeep(s, dir.temps + {s.unused}, 1);
          var u := SetDir(s, s.legacy.dir, dir.(temps := dir.temps + {s.unused})).(unused := s.unused + 1);
          OnwardLock(s, u, inode);
          GoKeeps(s, u, p, WriteLedger(inode, s.unused));
        }
      case WriteLedger(_, _) => WriteLedgerKeeps(s, p);
    }
  }

  lemma WriteLedgerKeeps(s: State, p: nat)
    requires Inv(s) && p in s.procs && s.procs[p].WriteLedger?
    ensures Inv(PreparerStep(s, p)) && Onward(s, PreparerStep(s, p))
  {
    hide Inv, Onward, Steady, FilesOk, LogLock, PcOk;
    ProcessIs(s, p);
    LogIsThere(s);
    var WriteLedger(inode, temp) := s.procs[p];
    var dir := s.dirs[s.legacy.dir];
    if dir.ledger.Some? {
      LedgerKeeps(s, dir.ledger, dir.temps - {temp});
      LeaveKeeps(s, SetDir(s, s.legacy.dir, dir.(temps := dir.temps - {temp})), p, Idle);
    } else {
      LedgerKeeps(s, Some(temp), dir.temps - {temp});
      var u := SetDir(s, s.legacy.dir, dir.(temps := dir.temps - {temp}, ledger := Some(temp)));
      OnwardLock(s, u, inode);
      GoKeeps(s, u, p, MakeStage(inode, Owned(temp, true)));
    }
  }

  lemma LogIsThere(s: State)
    requires FilesOk(s)
    ensures s.legacy.DirAt? ==> IsDir(s, s.legacy) && Log(s) == Some(s.legacy.dir)
  {
  }

  lemma StagePreparerKeeps(s: State, p: nat)
    requires Inv(s) && p in s.procs
    requires var pc := s.procs[p];
             !(pc.Look? || pc.CheckTarget? || pc.CheckLog? || pc.MakeLegacy? || pc.OpenLegacyLock? || pc.OpenSharedLock?
               || Waits(pc) || pc.Confirm? || pc.Verify? || pc.Report?
               || pc.ClearTarget? || pc.MakeLedger? || pc.WriteLedger?)
    ensures Inv(PreparerStep(s, p)) && Onward(s, PreparerStep(s, p))
  {
    hide Inv, Onward, Steady, FilesOk, LogLock, PcOk;
    NothingChanges(s);
    ProcessIs(s, p);
    LogIsThere(s);
    match s.procs[p] {
      case MakeStage(inode, ledger) => MakeStageKeeps(s, p);
      case Swap(inode, ledger, stage) =>
        SwapKeeps(s, ledger.inode);
        var u := s.(legacy := s.shared, shared := s.legacy, moves := s.moves + 1);
        OnwardLock(s, u, inode);
        GoKeeps(s, u, p, Report(inode));
      case UndoStage(inode, ledger, stage) =>
        if stage.armed && s.shared == MarkerAt(stage.inode) {
          StageKeeps(s, Absent, s.unused);
          OnwardLock(s, s.(shared := Absent), inode);
          GoKeeps(s, s.(shared := Absent), p, UndoLedger(inode, ledger));
        } else {
          GoKeeps(s, s, p, UndoLedger(inode, ledger));
        }
      case UndoLedger(inode, ledger) =>
        if ledger.armed && s.dirs[s.legacy.dir].ledger == Some(ledger.inode) {
          LedgerKeeps(s, None, s.dirs[s.legacy.dir].temps);
          LeaveKeeps(s, SetDir(s, s.legacy.dir, s.dirs[s.legacy.dir].(ledger := None)), p, Idle);
        } else {
          LeaveKeeps(s, s, p, Idle);
        }
      case _ =>
    }
  }

  lemma MakeStageKeeps(s: State, p: nat)
    requires Inv(s) && p in s.procs && s.procs[p].MakeStage?
    ensures Inv(PreparerStep(s, p)) && Onward(s, PreparerStep(s, p))
  {
    hide Inv, Onward, Steady, FilesOk, LogLock, PcOk;
    NothingChanges(s);
    ProcessIs(s, p);
    var MakeStage(inode, ledger) := s.procs[p];
    match s.shared {
      case Absent =>
        StageKeeps(s, MarkerAt(s.unused), s.unused + 1);
        var u := s.(shared := MarkerAt(s.unused), unused := s.unused + 1);
        OnwardLock(s, u, inode);
        GoKeeps(s, u, p, Swap(inode, ledger, Owned(s.unused, true)));
      case MarkerAt(m) => GoKeeps(s, s, p, Swap(inode, ledger, Owned(m, false)));
      case DirAt(_) => GoKeeps(s, s, p, UndoLedger(inode, ledger));
    }
  }

  // Failures, saves and the host.

  lemma FailKeepsInv(s: State, p: nat)
    requires Inv(s) && p in s.procs
    ensures Inv(FailStep(s, p)) && Onward(s, FailStep(s, p))
  {
    hide Inv, Onward, Steady, FilesOk, LogLock, PcOk;
    NothingChanges(s);
    ProcessIs(s, p);
    match s.procs[p] {
      case MakeDir(turn, root) => GoKeeps(s, s, p, RecheckFailed(turn, root));
      case OpenLock(turn, root) => GoKeeps(s, s, p, RecheckFailed(turn, root));
      case WaitLock(turn, root, _) => GoKeeps(s, s, p, RecheckFailed(turn, root));
      case Saving(_, _, _, _, _) => FailTempKeeps(s, p);
      case WriteLedger(_, _) => FailTempKeeps(s, p);
      case MakeStage(inode, ledger) => GoKeeps(s, s, p, UndoLedger(inode, ledger));
      case Swap(inode, ledger, stage) => GoKeeps(s, s, p, UndoStage(inode, ledger, stage));
      case UndoStage(inode, ledger, _) => GoKeeps(s, s, p, UndoLedger(inode, ledger));
      case _ => LeaveKeeps(s, s, p, Idle);
    }
  }

  lemma UnsyncedKeepsInv(s: State, p: nat)
    requires Inv(s) && p in s.procs
    ensures Inv(UnsyncedStep(s, p)) && Onward(s, UnsyncedStep(s, p))
  {
    hide Inv, Onward, Steady, FilesOk, LogLock, PcOk, ReaderStep, FailStep;
    NothingChanges(s);
    ProcessIs(s, p);
    LogIsThere(s);
    match s.procs[p] {
      case Saving(_, _, _, _, _) => SavingKeeps(s, p);
      case WriteLedger(_, temp) =>
        if s.dirs[s.legacy.dir].ledger.None? {
          var dir := s.dirs[s.legacy.dir];
          LedgerKeeps(s, Some(temp), dir.temps - {temp});
          LeaveKeeps(s, SetDir(s, s.legacy.dir, dir.(temps := dir.temps - {temp}, ledger := Some(temp))), p, Idle);
        } else {
          FailKeepsInv(s, p);
        }
      case MakeStage(inode, ledger) =>
        if s.shared.Absent? {
          StageKeeps(s, MarkerAt(s.unused), s.unused + 1);
          var u := s.(shared := MarkerAt(s.unused), unused := s.unused + 1);
          OnwardLock(s, u, inode);
          GoKeeps(s, u, p, UndoLedger(inode, ledger));
        } else {
          FailKeepsInv(s, p);
        }
      case _ => FailKeepsInv(s, p);
    }
  }

  lemma FailTempKeeps(s: State, p: nat)
    requires Inv(s) && p in s.procs && (s.procs[p].Saving? || s.procs[p].WriteLedger?)
    ensures Inv(FailStep(s, p)) && Onward(s, FailStep(s, p))
  {
    hide Inv, Onward, Steady, FilesOk, LogLock, PcOk, DropTemp;
    ProcessIs(s, p);
    match s.procs[p] {
      case Saving(root, inode, temp, _, _) =>
        DropTempKeeps(s, At(s, root), temp);
        OnwardLock(s, DropTemp(s, At(s, root), temp), inode);
        GoKeeps(s, DropTemp(s, At(s, root), temp), p, Live(root, inode));
      case WriteLedger(_, temp) =>
        DropTempKeeps(s, s.legacy, temp);
        LeaveKeeps(s, DropTemp(s, s.legacy, temp), p, Idle);
    }
  }

  lemma DropTempKeeps(s: State, entry: Entry, temp: nat)
    requires FilesOk(s) && (entry == At(s, RootOf(s)))
    ensures var u := DropTemp(s, entry, temp);
            FilesOk(u) && Onward(s, u) && Steady(s, u)
            && u.legacy == s.legacy && u.procs == s.procs && u.holders == s.holders
  {
    if IsDir(s, entry) {
      TempsKeep(s, s.dirs[entry.dir].temps - {temp}, 0);
    }
  }

  lemma BeginSaveKeepsInv(s: State, p: nat, key: string, value: string)
    requires Inv(s) && p in s.procs && s.procs[p].Live?
    ensures Inv(BeginSave(s, p, key, value)) && Onward(s, BeginSave(s, p, key, value))
  {
    hide Inv, Onward, Steady, FilesOk, LogLock, PcOk;
    NothingChanges(s);
    ProcessIs(s, p);
    var Live(root, inode) := s.procs[p];
    if IsDir(s, At(s, root)) {
      var d := At(s, root).dir;
      TempsKeep(s, s.dirs[d].temps + {s.unused}, 1);
      var u := SetDir(s, d, s.dirs[d].(temps := s.dirs[d].temps + {s.unused})).(unused := s.unused + 1);
      OnwardLock(s, u, inode);
      GoKeeps(s, u, p, Saving(root, inode, s.unused, key, value));
    }
  }

  lemma MountKeepsInv(s: State)
    requires Inv(s) && s.shared.Absent?
    ensures var t := s.(shared := DirAt(s.unused), dirs := s.dirs[s.unused := NEW_DIR], unused := s.unused + 1);
            Inv(t) && Onward(s, t)
  {
    hide Onward, Steady, FilesOk, Informed, Assured;
    MountKeeps(s);
    var t := s.(shared := DirAt(s.unused), dirs := s.dirs[s.unused := NEW_DIR], unused := s.unused + 1);
    forall p | p in t.procs ensures PcOk(t, p) {
      assert PcOk(s, p);
      OthersStayInformed(s, t, s.procs[p]);
      OthersStayAssured(s, t, s.procs[p]);
    }
  }

  /** Every step, failure and crash of every process keeps the invariant. */
  lemma NextKeepsInv(s: State, event: Event, t: State)
    requires Inv(s) && Next(s, event, t)
    ensures Inv(t) && Onward(s, t)
  {
    hide Onward, Steady, FilesOk, Inv, ReaderStep, PreparerStep, FailStep, UnsyncedStep, BeginSave;
    NothingChanges(s);
    match event
    case Opened(p) => StartKeepsInv(s, p, Locate(0));
    case Prepared(p) => StartKeepsInv(s, p, Look);
    case Read(p) => ReaderKeepsInv(s, p);
    case Moved(p) => PreparerKeepsInv(s, p);
    case Failed(p) => FailKeepsInv(s, p);
    case Unsynced(p) => UnsyncedKeepsInv(s, p);
    case Crashed(p) => CrashKeepsInv(s, p);
    case Saved(p, key, value) => BeginSaveKeepsInv(s, p, key, value);
    case Mounted => MountKeepsInv(s);
  }

  lemma StartKeepsInv(s: State, p: nat, pc: Pc)
    requires Inv(s) && (p in s.procs ==> s.procs[p].Idle?) && (pc == Locate(0) || pc == Look)
    ensures Inv(Go(s, p, pc)) && Onward(s, Go(s, p, pc))
  {
    hide Inv, Onward, Steady, FilesOk, PcOk;
    NothingChanges(s);
    FilesAre(s);
    GoKeeps(s, s, p, pc);
  }

  lemma CrashKeepsInv(s: State, p: nat)
    requires Inv(s) && p in s.procs
    ensures Inv(Leave(s, p, Idle)) && Onward(s, Leave(s, p, Idle))
  {
    hide Inv, Onward, Steady, FilesOk, PcOk;
    NothingChanges(s);
    FilesAre(s);
    LeaveKeeps(s, s, p, Idle);
  }

  // ---- Runs -----------------------------------------------------------------

  /** No process yet. The journal may not exist, may sit in Git metadata with a ledger, a
      staged marker or temporary files left by earlier crashes, or may have moved already. */
  predicate Initial(s: State) {
    FilesOk(s) && s.holders == map[] && s.procs == map[]
  }

  predicate IsRun(states: seq<State>, events: seq<Event>) {
    && |states| == |events| + 1
    && Initial(states[0])
    && forall i :: 0 <= i < |events| ==> Next(states[i], events[i], states[i + 1])
  }

  lemma {:induction false} RunKeepsInv(states: seq<State>, events: seq<Event>, i: nat)
    requires IsRun(states, events) && i < |states|
    ensures Inv(states[i])
  {
    hide Next, FilesOk, PcOk;
    if i > 0 {
      RunKeepsInv(states, events, i - 1);
      NextKeepsInv(states[i - 1], events[i - 1], states[i]);
    }
  }

  lemma {:induction false} RunMovesOn(states: seq<State>, events: seq<Event>, i: nat, j: nat)
    requires IsRun(states, events) && i <= j < |states|
    ensures Onward(states[i], states[j])
  {
    hide Next, Inv, Initial, LogLock, Log;
    if i < j {
      RunMovesOn(states, events, i, j - 1);
      RunKeepsInv(states, events, j - 1);
      NextKeepsInv(states[j - 1], events[j - 1], states[j]);
    }
  }

  predicate HasHandle(s: State, p: nat) {
    p in s.procs && (s.procs[p].Live? || s.procs[p].Saving?)
  }

  /** The journal as anyone who asks `location` now would read it. */
  function Journal(s: State): map<string, string> {
    if IsDir(s, At(s, RootOf(s))) then s.dirs[At(s, RootOf(s)).dir].entries else map[]
  }

  /** At most one handle is live, and while it is, its directory is the one a fresh
      `location` gives and its lock file is the one in that directory. */
  lemma OneLiveHandle(states: seq<State>, events: seq<Event>, i: nat, p: nat, q: nat)
    requires IsRun(states, events) && i < |states| && HasHandle(states[i], p)
    ensures HasHandle(states[i], q) ==> q == p
    ensures var pc := states[i].procs[p];
            Located(states[i]) && pc.root == RootOf(states[i]) && LockIs(states[i], At(states[i], pc.root), pc.inode)
  {
    hide Inv, FilesOk, Next, Initial;
    RunKeepsInv(states, events, i);
    ProcessIs(states[i], p);
    LocationHolds(states[i]);
    if HasHandle(states[i], q) {
      OneHolder(states[i], p, q);
    }
  }

  lemma LocationHolds(s: State)
    requires Inv(s)
    ensures Located(s) && Journal(s) == s.saved
    ensures s.moves == if s.legacy.MarkerAt? then 1 else 0
  {
    hide PcOk, HoldersOk;
  }

  /** All processes there ever are contend for one lock file. */
  lemma OneLockInode(states: seq<State>, events: seq<Event>, i: nat, j: nat, p: nat, q: nat)
    requires IsRun(states, events) && i <= j < |states| && p in states[i].procs && q in states[j].procs
    requires LockOf(states[i].procs[p]).Some? && LockOf(states[j].procs[q]).Some?
    ensures LockOf(states[i].procs[p]) == LockOf(states[j].procs[q])
  {
    hide Inv, FilesOk, Next, Initial, Assured;
    RunKeepsInv(states, events, i);
    RunKeepsInv(states, events, j);
    RunMovesOn(states, events, i, j);
    ProcessIs(states[i], p);
    ProcessIs(states[j], q);
    OnwardLock(states[i], states[j], LockOf(states[i].procs[p]).value);
  }

  /** At every moment of every run, with crashes and failed exchanges anywhere, the journal
      found through the current layout is exactly what finished saves wrote, `location`
      does not refuse, and the move has happened at most once and is never undone. */
  lemma JournalIsKept(states: seq<State>, events: seq<Event>, i: nat, j: nat)
    requires IsRun(states, events) && i <= j < |states|
    ensures Journal(states[j]) == states[j].saved
    ensures Located(states[j]) && states[j].moves <= 1
    ensures RootOf(states[i]) == Shared ==> RootOf(states[j]) == Shared && states[j].shared == states[i].shared
  {
    hide Inv, FilesOk, Next, Initial;
    RunKeepsInv(states, events, i);
    RunKeepsInv(states, events, j);
    RunMovesOn(states, events, i, j);
    LocationHolds(states[i]);
    LocationHolds(states[j]);
  }

  /** What counts as saved changes only when a handle's save is renamed into place. */
  lemma OnlySavesSave(s: State, event: Event, t: State)
    requires Inv(s) && Next(s, event, t)
    ensures t.saved == s.saved ||
            (&& (event.Read? || event.Unsynced?) && event.p in s.procs && s.procs[event.p].Saving?
             && t.saved == s.saved[s.procs[event.p].key := s.procs[event.p].value])
  {
    hide Inv, FilesOk, ReaderStep, PreparerStep, FailStep, UnsyncedStep;
    match event
    case Read(p) => ReaderSaves(s, p);
    case Moved(p) => PreparerSaves(s, p);
    case Failed(p) => FailureSaves(s, p);
    case Unsynced(p) => UnsyncedSaves(s, p);
    case _ =>
  }

  lemma ReaderSaves(s: State, p: nat)
    requires p in s.procs
    ensures ReaderStep(s, p).saved == s.saved
            || (s.procs[p].Saving? && ReaderStep(s, p).saved == s.saved[s.procs[p].key := s.procs[p].value])
  {
  }

  lemma PreparerSaves(s: State, p: nat)
    requires p in s.procs
    ensures PreparerStep(s, p).saved == s.saved
  {
    hide OpenIn, PreparerStep;
    if Holds(s.procs[p]) { HolderSaves(s, p); } else { OutsiderSaves(s, p); }
  }

  lemma HolderSaves(s: State, p: nat)
    requires p in s.procs && Holds(s.procs[p])
    ensures PreparerStep(s, p).saved == s.saved
  {
    hide OpenIn, LogOk, TargetOk, Located, IsDir;
  }

  lemma OutsiderSaves(s: State, p: nat)
    requires p in s.procs && !Holds(s.procs[p])
    ensures PreparerStep(s, p).saved == s.saved
  {
    hide LogOk, TargetOk, Located;
  }

  lemma FailureSaves(s: State, p: nat)
    requires p in s.procs
    ensures FailStep(s, p).saved == s.saved
  {
    hide IsDir, Leave, DropTemp;
    LeaveSaves(s, p, Idle);
    DropTempSaves(s, s.legacy);
    DropTempSaves(s, s.shared);
    match s.procs[p] {
      case WriteLedger(_, temp) => LeaveSaves(DropTemp(s, s.legacy, temp), p, Idle);
      case _ =>
    }
  }

  lemma LeaveSaves(s: State, p: nat, pc: Pc)
    ensures Leave(s, p, pc).saved == s.saved
  {
  }

  lemma DropTempSaves(s: State, entry: Entry)
    ensures forall temp :: DropTemp(s, entry, temp).saved == s.saved
  {
  }

  lemma UnsyncedSaves(s: State, p: nat)
    requires p in s.procs
    ensures UnsyncedStep(s, p).saved == s.saved
            || (s.procs[p].Saving? && UnsyncedStep(s, p).saved == s.saved[s.procs[p].key := s.procs[p].value])
  {
    hide ReaderStep, FailStep;
    ReaderSaves(s, p);
    FailureSaves(s, p);
  }

  /** A reader goes round its loop at most twice. */
  lemma ReaderTurnsTwice(states: seq<State>, events: seq<Event>, i: nat, p: nat)
    requires IsRun(states, events) && i < |states| && p in states[i].procs
    ensures var pc := states[i].procs[p];
            pc.Locate? || pc.MakeDir? || pc.OpenLock? || pc.WaitLock? || pc.Recheck?
            || pc.RecheckFailed? || pc.SameLock?
            ==> pc.turn <= 1
  {
    hide Inv, FilesOk, Next, Initial, LogLock;
    RunKeepsInv(states, events, i);
    ProcessIs(states[i], p);
  }

  // ---- Running preparation again --------------------------------------------

  /** A preparer's next `n` steps with nobody else about. */
  function Alone(s: State, p: nat, n: nat): State
    decreases n
  {
    if n == 0 || p !in s.procs then s else Alone(PreparerStep(s, p), p, n - 1)
  }

  lemma {:induction false} AloneAdds(s: State, p: nat, m: nat, n: nat)
    ensures Alone(s, p, m + n) == Alone(Alone(s, p, m), p, n)
    decreases m
  {
    hide PreparerStep;
    if 0 < m && p in s.procs {
      AloneAdds(PreparerStep(s, p), p, m - 1, n);
    }
  }

  lemma {:induction false} IdleStays(s: State, p: nat, n: nat)
    requires p in s.procs && s.procs[p].Idle?
    ensures Alone(s, p, n) == s
  {
    if 0 < n { IdleStays(s, p, n - 1); }
  }

  lemma ThreeSteps(s: State, p: nat)
    requires p in s.procs && p in PreparerStep(s, p).procs && p in PreparerStep(PreparerStep(s, p), p).procs
    ensures Alone(s, p, 3) == PreparerStep(PreparerStep(PreparerStep(s, p), p), p)
  {
    hide PreparerStep;
  }

  /** Not moved yet, and nothing the checks refuse. */
  predicate Movable(s: State, p: nat) {
    && FilesOk(s) && !s.legacy.MarkerAt? && (s.legacy.DirAt? ==> LogOk(s)) && p in s.procs
  }

  lemma GoGo(s: State, p: nat, a: Pc, b: Pc)
    ensures Go(Go(s, p, a), p, b) == Go(s, p, b)
    ensures Located(Go(s, p, a)) == Located(s) && TargetOk(Go(s, p, a)) == TargetOk(s) && LogOk(Go(s, p, a)) == LogOk(s)
  {
    assert s.procs[p := a][p := b] == s.procs[p := b];
  }

  lemma MovableIs(s: State, p: nat)
    requires FilesOk(s) && !s.legacy.MarkerAt?
    ensures Located(s) && TargetOk(s)
  {
  }

  lemma CheckedSteps(s: State, p: nat)
    requires FilesOk(s) && !s.legacy.MarkerAt? && p in s.procs && s.procs[p] == Look
    ensures Alone(s, p, 3) == Go(s, p, if s.legacy.Absent? || LogOk(s) then MakeLegacy else Idle)
  {
    hide FilesOk, Alone, TargetOk, LogOk, Located, Go, PreparerStep;
    MovableIs(s, p);
    GoGo(s, p, CheckTarget, CheckLog);
    GoGo(s, p, CheckLog, MakeLegacy);
    GoGo(s, p, CheckLog, Idle);
    GoesTo(s, p);
    CheckingSteps(s, p);
    CheckingSteps(Go(s, p, CheckTarget), p);
    CheckingSteps(Go(s, p, CheckLog), p);
    ThreeSteps(s, p);
  }

  lemma CheckingSteps(s: State, p: nat)
    requires p in s.procs && Located(s) && TargetOk(s) && !s.legacy.MarkerAt?
    ensures s.procs[p] == Look ==> PreparerStep(s, p) == Go(s, p, CheckTarget)
    ensures s.procs[p] == CheckTarget ==> PreparerStep(s, p) == Go(s, p, CheckLog)
    ensures s.procs[p] == CheckLog ==>
              PreparerStep(s, p) == Go(s, p, if s.legacy.Absent? || LogOk(s) then MakeLegacy else Idle)
  {
    hide TargetOk, LogOk, Located, Go, OpenIn;
  }

  lemma GoesTo(s: State, p: nat)
    ensures forall pc :: p in Go(s, p, pc).procs && Go(s, p, pc).procs[p] == pc && Go(s, p, pc).legacy == s.legacy
  {
  }

  lemma LookSteps(s: State, p: nat)
    requires Movable(s, p) && s.procs[p] == Look
    ensures Alone(s, p, 3) == Go(s, p, MakeLegacy)
  {
    hide FilesOk, Alone, LogOk, Go;
    CheckedSteps(s, p);
  }

  lemma MakeLegacyStep(s: State, p: nat)
    requires Movable(s, p) && s.procs[p] == MakeLegacy
    ensures var t := PreparerStep(s, p);
            && Movable(t, p) && t.procs[p] == OpenLegacyLock && t.legacy.DirAt?
            && t.saved == s.saved && t.holders == s.holders
  {
    hide FilesOk;
    if s.legacy.Absent? { CreateKeeps(s); }
    SameFiles(if s.legacy.Absent? then Create(s) else s, PreparerStep(s, p), Idle);
    LogIsThere(PreparerStep(s, p));
  }

  lemma OpenLockStep(s: State, p: nat)
    requires Movable(s, p) && s.procs[p] == OpenLegacyLock && s.legacy.DirAt?
    ensures var t := PreparerStep(s, p);
            && Movable(t, p) && t.procs[p].WaitLegacyLock? && t.legacy.DirAt?
            && LockIs(t, t.legacy, t.procs[p].inode) && t.saved == s.saved && t.holders == s.holders
  {
    hide FilesOk;
    LogIsThere(s);
    OpenKeeps(s, s.legacy.dir);
    var (u, inode) := OpenIn(s, s.legacy.dir);
    SameFiles(u, PreparerStep(s, p), Idle);
  }

  lemma TakeLockStep(s: State, p: nat)
    requires Movable(s, p) && s.procs[p].WaitLegacyLock? && s.holders == map[]
    ensures var t := PreparerStep(s, p);
            && Movable(t, p) && t.procs[p] == Confirm(s.procs[p].inode) && t.legacy == s.legacy && t.dirs == s.dirs
            && t.saved == s.saved
  {
    hide FilesOk;
    SameFiles(s, PreparerStep(s, p), Idle);
  }

  lemma OpenSteps(s: State, p: nat)
    requires Movable(s, p) && s.procs[p] == MakeLegacy && s.holders == map[]
    ensures var t := Alone(s, p, 3);
            && Movable(t, p) && t.procs[p].Confirm? && t.saved == s.saved
            && t.legacy.DirAt? && LockIs(t, t.legacy, t.procs[p].inode)
  {
    hide FilesOk, PreparerStep, Alone;
    MakeLegacyStep(s, p);
    OpenLockStep(PreparerStep(s, p), p);
    TakeLockStep(PreparerStep(PreparerStep(s, p), p), p);
    ThreeSteps(s, p);
  }

  lemma CheckSteps(s: State, p: nat)
    requires Movable(s, p) && s.procs[p].Confirm?
    requires s.legacy.DirAt? && LockIs(s, s.legacy, s.procs[p].inode)
    ensures var t := Alone(s, p, 3);
            && Movable(t, p) && t.procs[p].MakeLedger? && t.saved == s.saved
            && t.legacy.DirAt? && !t.shared.DirAt?
  {
    hide FilesOk;
    TargetIsOk(s);
    var s1 := PreparerStep(s, p);
    var s2 := PreparerStep(s1, p);
    SameFiles(s, s1, Idle);
    SameFiles(s, s2, Idle);
    assert s2.procs[p] == ClearTarget(s.procs[p].inode);
    var s3 := PreparerStep(s2, p);
    if s2.shared.DirAt? {
      ClearKeeps(s2);
      SameFiles(s2.(shared := Absent, dirs := s2.dirs - {s2.shared.dir}), s3, Idle);
      LogIsThere(s3);
    } else {
      SameFiles(s2, s3, Idle);
    }
    ThreeSteps(s, p);
  }

  lemma TargetIsOk(s: State)
    requires FilesOk(s) && !s.legacy.MarkerAt?
    ensures TargetOk(s) && (s.legacy.DirAt? && s.shared.DirAt? ==> s.shared.dir != s.legacy.dir)
  {
  }

  lemma LedgerSteps(s: State, p: nat) returns (t: State, n: nat)
    requires Movable(s, p) && s.procs[p].MakeLedger? && s.legacy.DirAt? && !s.shared.DirAt?
    ensures 1 <= n <= 2 && t == Alone(s, p, n) && p in t.procs && t.procs[p].MakeStage?
    ensures t.legacy == s.legacy && t.shared == s.shared && t.saved == s.saved
  {
    hide FilesOk, Alone;
    var s1 := PreparerStep(s, p);
    AloneOne(s, p);
    if s1.procs[p].WriteLedger? {
      var s2 := PreparerStep(s1, p);
      AloneOne(s1, p);
      AloneAdds(s, p, 1, 1);
      return s2, 2;
    }
    return s1, 1;
  }

  lemma AloneOne(s: State, p: nat)
    requires p in s.procs
    ensures Alone(s, p, 1) == PreparerStep(s, p)
  {
    hide PreparerStep;
  }

  lemma MakeStageStep(s: State, p: nat)
    requires p in s.procs && s.procs[p].MakeStage? && !s.shared.DirAt?
    ensures var t := PreparerStep(s, p);
            && p in t.procs && t.procs[p].Swap? && t.legacy == s.legacy && t.shared.MarkerAt? && t.saved == s.saved
  {
  }

  lemma SwapStep(s: State, p: nat)
    requires p in s.procs && s.procs[p].Swap? && s.legacy.DirAt? && s.shared.MarkerAt?
    ensures var t := PreparerStep(s, p);
            && p in t.procs && t.procs[p].Report? && t.legacy.MarkerAt? && t.saved == s.saved
            && var u := PreparerStep(t, p);
               p in u.procs && u.procs[p].Idle? && u.legacy == t.legacy && u.saved == s.saved
  {
  }

  lemma StageSteps(s: State, p: nat)
    requires p in s.procs && s.procs[p].MakeStage? && s.legacy.DirAt? && !s.shared.DirAt?
    ensures var t := Alone(s, p, 3); t.legacy.MarkerAt? && t.saved == s.saved && p in t.procs && t.procs[p].Idle?
  {
    hide Alone, PreparerStep;
    MakeStageStep(s, p);
    SwapStep(PreparerStep(s, p), p);
    ThreeSteps(s, p);
  }

  lemma MarkSteps(s: State, p: nat)
    requires Movable(s, p) && s.procs[p].MakeLedger? && s.legacy.DirAt? && !s.shared.DirAt?
    ensures var t := Alone(s, p, 5); t.legacy.MarkerAt? && t.saved == s.saved && p in t.procs && t.procs[p].Idle?
  {
    hide Alone, PreparerStep, FilesOk;
    var t, n := LedgerSteps(s, p);
    StageSteps(t, p);
    AloneAdds(s, p, n, 3);
    IdleStays(Alone(t, p, 3), p, 2 - n);
    AloneAdds(s, p, n + 3, 2 - n);
  }

  /** Preparation that starts when nobody holds the journal and runs undisturbed completes
      the move, whatever earlier crashes left, exactly when they left no temporary file
      beside the entries; either way every saved entry is still found. */
  lemma RerunCompletes(s: State, p: nat)
    requires Inv(s) && s.holders == map[] && !s.legacy.MarkerAt? && p !in s.procs
    ensures var t := Alone(Go(s, p, Look), p, 14);
            && (t.legacy.MarkerAt? <==> (s.legacy.DirAt? ==> LogOk(s)))
            && p in t.procs && t.procs[p].Idle? && t.saved == s.saved
  {
    hide Inv, FilesOk, PreparerStep, Alone, TargetOk, Located;
    FilesAre(s);
    var s0 := Go(s, p, Look);
    SameFiles(s, s0, Idle);
    if s.legacy.DirAt? && !LogOk(s) {
      StrayStops(s0, p);
    } else {
      LookSteps(s0, p);
      var s1 := Go(s0, p, MakeLegacy);
      SameFiles(s, s1, Idle);
      AloneAdds(s0, p, 3, 11);
      OpenSteps(s1, p);
      var s2 := Alone(s1, p, 3);
      AloneAdds(s1, p, 3, 8);
      CheckSteps(s2, p);
      var s3 := Alone(s2, p, 3);
      AloneAdds(s2, p, 3, 5);
      MarkSteps(s3, p);
    }
  }

  lemma StrayStops(s: State, p: nat)
    requires FilesOk(s) && p in s.procs && s.procs[p] == Look && s.legacy.DirAt? && !LogOk(s)
    ensures Alone(s, p, 14) == Go(s, p, Idle)
  {
    hide FilesOk, Alone, LogOk, PreparerStep;
    CheckedSteps(s, p);
    AloneAdds(s, p, 3, 11);
    IdleStays(Go(s, p, Idle), p, 11);
  }
}
