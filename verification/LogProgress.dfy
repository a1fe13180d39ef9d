/** What one undisturbed process of the request log gets done, in either layout. */
module LogProgress {
  import opened Basics
  import opened Migration
  import opened LogSafety

  /** A reader's next `n` steps with nobody else about. */
  function ReadOn(s: State, p: nat, n: nat): State
    decreases n
  {
    if n == 0 || p !in s.procs then s else ReadOn(ReaderStep(s, p), p, n - 1)
  }

  /** The journal's place and contents are the same. */
  predicate SameJournal(s: State, t: State) {
    RootOf(t) == RootOf(s) && t.saved == s.saved && t.moves == s.moves
  }

  lemma LocateOn(s: State, p: nat)
    requires FilesOk(s) && p in s.procs && s.procs[p] == Locate(0)
    ensures ReaderStep(s, p) == Go(s, p, MakeDir(0, RootOf(s)))
  {
  }

  lemma RootIsThere(s: State)
    requires FilesOk(s)
    ensures !At(s, RootOf(s)).MarkerAt?
    ensures s.legacy.Absent? || (IsDir(s, At(s, RootOf(s))) && Log(s) == Some(At(s, RootOf(s)).dir))
  {
  }

  lemma MakeDirOn(s: State, p: nat)
    requires FilesOk(s) && p in s.procs && s.procs[p] == MakeDir(0, RootOf(s))
    ensures var t := ReaderStep(s, p);
            && FilesOk(t) && p in t.procs && t.procs[p] == OpenLock(0, RootOf(t))
            && !t.legacy.Absent? && SameJournal(s, t) && t.holders == s.holders
  {
    hide FilesOk;
    RootIsThere(s);
    if s.legacy.Absent? { CreateKeeps(s); }
    SameFiles(if s.legacy.Absent? then Create(s) else s, ReaderStep(s, p), Idle);
  }

  lemma OpenOn(s: State, p: nat)
    requires FilesOk(s) && p in s.procs && s.procs[p] == OpenLock(0, RootOf(s)) && !s.legacy.Absent?
    ensures var t := ReaderStep(s, p);
            && FilesOk(t) && p in t.procs && t.procs[p].WaitLock?
            && t.procs[p] == WaitLock(0, RootOf(t), t.procs[p].inode)
            && LockIs(t, At(t, RootOf(t)), t.procs[p].inode) && SameJournal(s, t) && t.holders == s.holders
  {
    hide FilesOk;
    RootIsThere(s);
    var d := At(s, RootOf(s)).dir;
    OpenKeeps(s, d);
    var (u, inode) := OpenIn(s, d);
    SameFiles(u, ReaderStep(s, p), Idle);
  }

  lemma LockOn(s: State, p: nat)
    requires FilesOk(s) && p in s.procs && s.procs[p].WaitLock? && s.holders == map[]
    requires s.procs[p] == WaitLock(0, RootOf(s), s.procs[p].inode) && LockIs(s, At(s, RootOf(s)), s.procs[p].inode)
    ensures var t := ReadOn(s, p, 3);
            && p in t.procs && t.procs[p] == Live(RootOf(t), s.procs[p].inode)
            && t.holders == map[s.procs[p].inode := p] && SameJournal(s, t)
  {
    var inode, root := s.procs[p].inode, RootOf(s);
    var t := ReaderStep(s, p);
    assert t == Go(s, p, Recheck(0, root, inode)).(holders := map[inode := p]);
    assert Located(t) && RootOf(t) == root;
    var u := ReaderStep(t, p);
    assert u == Go(t, p, SameLock(0, root, inode));
    assert LockIs(u, At(u, root), inode);
    assert ReaderStep(u, p) == Go(u, p, Live(root, inode));
    ReadThree(s, p);
  }

  lemma ReadThree(s: State, p: nat)
    requires p in s.procs && p in ReaderStep(s, p).procs && p in ReaderStep(ReaderStep(s, p), p).procs
    ensures ReadOn(s, p, 3) == ReaderStep(ReaderStep(ReaderStep(s, p), p), p)
  {
    hide ReaderStep;
  }

  lemma {:induction false} ReadOnKeeps(s: State, p: nat, n: nat)
    requires Inv(s)
    ensures Inv(ReadOn(s, p, n))
    decreases n
  {
    hide ReaderStep, Inv;
    if 0 < n && p in s.procs {
      ReaderKeepsInv(s, p);
      ReadOnKeeps(ReaderStep(s, p), p, n - 1);
    }
  }

  lemma {:induction false} ReadOnAdds(s: State, p: nat, m: nat, n: nat)
    ensures ReadOn(s, p, m + n) == ReadOn(ReadOn(s, p, m), p, n)
    decreases m
  {
    hide ReaderStep;
    if 0 < m && p in s.procs {
      ReadOnAdds(ReaderStep(s, p), p, m - 1, n);
    }
  }

  /** Six steps take a reader from its start to its handle. */
  lemma HandleIsReached(s: State, p: nat)
    requires FilesOk(s) && p in s.procs && s.procs[p] == Locate(0) && s.holders == map[]
    ensures var t := ReadOn(s, p, 6);
            && p in t.procs && t.procs[p].Live? && t.procs[p].root == RootOf(t)
            && t.holders == map[t.procs[p].inode := p] && SameJournal(s, t)
  {
    hide FilesOk, ReaderStep, ReadOn;
    LocateOn(s, p);
    var s1 := ReaderStep(s, p);
    SameFiles(s, s1, Idle);
    MakeDirOn(s1, p);
    var s2 := ReaderStep(s1, p);
    OpenOn(s2, p);
    var s3 := ReaderStep(s2, p);
    LockOn(s3, p);
    ReadThree(s, p);
    ReadOnAdds(s, p, 3, 3);
  }

  /** A reader that starts when nobody holds the journal gets its handle in six steps, on the
      journal's directory wherever it is, and finds every saved entry. */
  lemma UndisturbedOpens(s: State, p: nat)
    requires Inv(s) && s.holders == map[] && (p in s.procs ==> s.procs[p].Idle?)
    ensures var t := ReadOn(Go(s, p, Locate(0)), p, 6);
            && Inv(t) && p in t.procs && t.procs[p].Live? && t.procs[p].root == RootOf(t)
            && SameJournal(s, t) && Journal(t) == Journal(s)
  {
    hide Inv, FilesOk, ReaderStep, ReadOn, Journal;
    FilesAre(s);
    var s0 := Go(s, p, Locate(0));
    StartKeepsInv(s, p, Locate(0));
    SameFiles(s, s0, Idle);
    HandleIsReached(s0, p);
    ReadOnKeeps(s0, p, 6);
    LocationHolds(s);
    LocationHolds(ReadOn(s0, p, 6));
  }

  /** Through a live handle a save adds its entry to the journal and to nothing else. */
  lemma UndisturbedSaves(s: State, p: nat, key: string, value: string)
    requires Inv(s) && p in s.procs && s.procs[p].Live?
    ensures p in BeginSave(s, p, key, value).procs
    ensures var t := ReaderStep(BeginSave(s, p, key, value), p);
            && Inv(t) && p in t.procs && t.procs[p] == s.procs[p] && t.holders == s.holders
            && Journal(t) == Journal(s)[key := value] && RootOf(t) == RootOf(s) && t.moves == s.moves
  {
    hide Inv, FilesOk, Journal;
    ProcessIs(s, p);
    RootIsThere(s);
    BeginSaveKeepsInv(s, p, key, value);
    var u := BeginSave(s, p, key, value);
    ReaderKeepsInv(u, p);
    LocationHolds(s);
    LocationHolds(ReaderStep(u, p));
  }

  /** A save that fails, unlike one that is killed, leaves neither its entry nor its temporary
      file, so preparation is not in its way. */
  lemma FailedSaveLeavesNothing(s: State, p: nat, key: string, value: string)
    requires Inv(s) && p in s.procs && s.procs[p].Live?
    ensures p in BeginSave(s, p, key, value).procs
    ensures var t := FailStep(BeginSave(s, p, key, value), p);
            && Inv(t) && p in t.procs && t.procs[p] == s.procs[p] && Journal(t) == Journal(s)
            && IsDir(s, At(s, RootOf(s))) && IsDir(t, At(t, RootOf(t)))
            && t.dirs[At(t, RootOf(t)).dir].temps <= s.dirs[At(s, RootOf(s)).dir].temps
  {
    hide Inv, FilesOk, Journal;
    ProcessIs(s, p);
    HandleHasLog(s, p);
    BeginSaveKeepsInv(s, p, key, value);
    var u := BeginSave(s, p, key, value);
    FailKeepsInv(u, p);
    LocationHolds(s);
    LocationHolds(FailStep(u, p));
  }

  /** So does a ledger whose writing fails. */
  lemma FailedLedgerLeavesNothing(s: State, p: nat)
    requires p in s.procs && s.procs[p].WriteLedger? && IsDir(s, s.legacy)
    ensures var t := FailStep(s, p);
            && IsDir(t, t.legacy) && s.procs[p].temp !in t.dirs[t.legacy.dir].temps
            && t.dirs[t.legacy.dir].temps <= s.dirs[s.legacy.dir].temps
  {
  }

  /** Preparation where the journal has moved waits for its lock, reports, and changes
      nothing. */
  lemma PreparedAgain(s: State, p: nat)
    requires Inv(s) && s.holders == map[] && s.legacy.MarkerAt? && (p in s.procs ==> s.procs[p].Idle?)
    ensures var s0 := Go(s, p, Look);
            && p in Alone(s0, p, 3).procs && Alone(s0, p, 3).procs[p].Report?
            && p in Alone(s0, p, 4).procs && Alone(s0, p, 4).procs[p].Idle?
            && SameJournal(s, Alone(s0, p, 4)) && Alone(s0, p, 4).holders == map[]
  {
    hide Inv, Alone, FilesOk, PreparerStep;
    FilesAre(s);
    RootIsThere(s);
    LocationHolds(s);
    var s0 := Go(s, p, Look);
    MovedSteps(s0, p);
    ThreeSteps(s0, p);
    var s3 := Alone(s0, p, 3);
    ReportEnds(s3, p);
    AloneOne(s3, p);
    AloneAdds(s0, p, 3, 1);
  }

  lemma MovedSteps(s: State, p: nat)
    requires p in s.procs && s.procs[p] == Look && Located(s) && s.legacy.MarkerAt? && s.holders == map[]
    ensures p in PreparerStep(s, p).procs && p in PreparerStep(PreparerStep(s, p), p).procs
    ensures var t := PreparerStep(PreparerStep(PreparerStep(s, p), p), p);
            && p in t.procs && t.procs[p].Report? && SameJournal(s, t) && t.holders == map[t.procs[p].inode := p]
  {
    hide Located, IsDir, OpenIn;
    var s1 := PreparerStep(s, p);
    assert s1 == Go(s, p, OpenSharedLock);
    GoGo(s, p, OpenSharedLock, Idle);
    SharedLockOpens(s1, p);
    var s2 := PreparerStep(s1, p);
    var inode := s2.procs[p].inode;
    assert PreparerStep(s2, p) == Go(s2, p, Report(inode)).(holders := map[inode := p]);
  }

  lemma SharedLockOpens(s: State, p: nat)
    requires p in s.procs && s.procs[p] == OpenSharedLock && Located(s) && s.legacy.MarkerAt?
    ensures var t := PreparerStep(s, p);
            p in t.procs && t.procs[p].WaitSharedLock? && t.holders == s.holders && SameJournal(s, t)
  {
  }

  lemma ReportEnds(s: State, p: nat)
    requires p in s.procs && s.procs[p].Report? && s.holders == map[s.procs[p].inode := p]
    ensures var t := PreparerStep(s, p);
            p in t.procs && t.procs[p].Idle? && t.holders == map[] && SameJournal(s, t)
  {
  }

  // ---- A file that stays ----------------------------------------------------

  lemma ReadOnHas(s: State, p: nat, i: nat, n: nat)
    requires i <= n && p in ReadOn(s, p, n).procs
    ensures p in ReadOn(s, p, i).procs
  {
    hide ReaderStep;
    ReadOnAdds(s, p, i, n - i);
  }

  /** The states a reader passes, one step apart. */
  lemma ReadSteps(s: State, p: nat, n: nat) returns (states: seq<State>)
    requires p in ReadOn(s, p, n).procs
    ensures |states| == n + 1 && states[0] == s && states[n] == ReadOn(s, p, n)
    ensures forall i :: 0 <= i < n ==> p in states[i].procs && states[i + 1] == ReaderStep(states[i], p)
  {
    hide ReaderStep;
    states := seq(n + 1, i requires 0 <= i <= n => ReadOn(s, p, i));
    forall i | 0 <= i < n ensures p in states[i].procs && states[i + 1] == ReaderStep(states[i], p) {
      ReadOnHas(s, p, i, n);
      ReadOnAdds(s, p, i, 1);
      assert ReadOn(states[i], p, 1) == ReadOn(ReaderStep(states[i], p), p, 0);
    }
  }

  lemma CutSave(s: State, inode: nat, key: string, value: string)
    requires 0 in s.procs && s.procs[0] == Live(Legacy, inode) && IsDir(s, s.legacy) && s.holders == map[inode := 0]
    ensures var t := Leave(BeginSave(s, 0, key, value), 0, Idle);
            && 0 in BeginSave(s, 0, key, value).procs
            && t.holders == map[] && t.legacy.DirAt? && !LogOk(t)
  {
    var t := Leave(BeginSave(s, 0, key, value), 0, Idle);
    assert s.unused in t.dirs[t.legacy.dir].temps;
  }

  lemma HandleHasLog(s: State, p: nat)
    requires Inv(s) && p in s.procs && s.procs[p].Live?
    ensures IsDir(s, At(s, RootOf(s)))
  {
    hide Inv, FilesOk;
    ProcessIs(s, p);
    RootIsThere(s);
  }

  lemma InitialIsInv(s: State)
    requires Initial(s)
    ensures Inv(s)
  {
    hide FilesOk;
  }

  /** Such files do get left: from any start with the journal not yet moved, a save whose
      process dies before its rename leaves one, and then no preparation completes. */
  lemma CutSaveStops(s: State, key: string, value: string) returns (states: seq<State>, events: seq<Event>)
    requires Initial(s) && !s.legacy.MarkerAt?
    ensures IsRun(states, events) && states[0] == s && |events| == 9
    ensures var last := states[9];
            && last.holders == map[] && last.legacy.DirAt? && !LogOk(last)
            && forall p | p !in last.procs :: !Alone(Go(last, p, Look), p, 14).legacy.MarkerAt?
  {
    hide Alone, ReadOn, ReaderStep, PreparerStep, FailStep, UnsyncedStep, BeginSave, FilesOk, Inv, LogOk, Leave;
    var s1 := Go(s, 0, Locate(0));
    SameFiles(s, s1, Idle);
    InitialIsInv(s);
    UndisturbedOpens(s, 0);
    HandleIsReached(s1, 0);
    var opening := ReadSteps(s1, 0, 6);
    var s7 := opening[6];
    HandleHasLog(s7, 0);
    CutSave(s7, s7.procs[0].inode, key, value);
    var s8 := BeginSave(s7, 0, key, value);
    var s9 := Leave(s8, 0, Idle);
    states := [s] + opening + [s8, s9];
    events := [Opened(0)] + seq(6, i => Read(0)) + [Saved(0, key, value), Crashed(0)];
    forall i | 0 <= i < 9 ensures Next(states[i], events[i], states[i + 1]) {
      if 1 <= i < 7 { assert events[i] == Read(0) && states[i] == opening[i - 1] && states[i + 1] == opening[i]; }
    }
    RunKeepsInv(states, events, 9);
    forall p | p !in s9.procs ensures !Alone(Go(s9, p, Look), p, 14).legacy.MarkerAt? {
      RerunCompletes(s9, p);
    }
  }
}
