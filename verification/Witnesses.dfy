/** Runs that do happen: every plan on a clean checkout can be carried out in one call, a
    killed call can leave a file that its retry does not take away, and two promises a reader
    might expect of the writer fail in concrete runs. */
module Witnesses {
  import opened Basics
  import opened Naming
  import opened Records
  import opened Writer
  import opened Planning
  import opened Commits
  import opened Runs
  import Scaffold

  // ---- A call that completes ------------------------------------------------

  function ReceiptFor(s: Repo, plan: Intent): Receipt {
    Receipt(plan.id, plan.path, |s.chain|, true, plan.request, plan.text, false)
  }

  function Completed(s: Repo, key: Key, plan: Intent): Repo
    requires s.chain != []
  {
    var tree := Overlay(Head(s), Files(plan));
    Repo(s.chain + [Commit(tree, Some(key))], tree, tree, s.stray,
         s.intents[key := plan.(files := Files(plan), receipt := Some(ReceiptFor(s, plan)))])
  }

  /** A saved plan whose checkout is still as it was planned on is committed and answered. */
  lemma PlanFinishes(s: Repo, key: Key)
    requires Inv(s) && s.chain != [] && s.index == Head(s) && s.work == Head(s) && key in s.intents
    requires var plan := s.intents[key];
             && plan.receipt.None? && plan.parent == |s.chain| - 1 && WellAsked(key, plan.request)
             && Overlay(Head(s), Files(plan)) != Head(s)
    ensures var plan := s.intents[key];
            Serviced(s, key, plan.request, Done(ReceiptFor(s, plan)), Completed(s, key, plan))
  {
    hide Inv, IntentOk, Overlay, WellAsked, Evolves, Resumable, Honest, Sound, Accepts;
    var plan := s.intents[key];
    var tree := Overlay(Head(s), Files(plan));
    PlanOf(s, key);
    FittingAccepts(Head(s), Files(plan));
    var committed := s.(chain := s.chain + [Commit(tree, Some(key))]);
    OwnCommitKeepsInv(s, key);
    PlanOf(committed, key);
    OverlayHas(Head(s), Files(plan));
    NewReceiptIsHonest(committed, key, ReceiptFor(s, plan));
    SaveReceiptKeepsInv(committed, key, ReceiptFor(s, plan));
    var answered := committed.(intents := s.intents[key := plan.(files := Files(plan),
                receipt := Some(ReceiptFor(s, plan)))]);
    EvolvesTransitive(s, committed, answered);
    EditKeepsInv(answered, tree, s.stray, tree);
    var t := Completed(s, key, plan);
    assert t == answered.(work := tree, stray := s.stray, index := tree);
    EvolvesTransitive(s, answered, t);
    assert Files(t.intents[key]) == Files(plan) && Files(plan)[..|Files(plan)|] == Files(plan);
    ReceiptedIsResumable(t, key);
  }

  /** Any plan the writer may save on a clean checkout can be committed and answered. */
  lemma PlanCompletes(s: Repo, key: Key, plan: Intent)
    requires Inv(s) && s.chain != [] && Clean(s) && key !in s.intents && WellAsked(key, plan.request)
    requires plan.receipt.None? && plan.parent == |s.chain| - 1 && IntentOk(s.chain, key, plan)
    requires Overlay(Head(s), Files(plan)) != Head(s)
    ensures Serviced(s, key, plan.request, Done(ReceiptFor(s, plan)), Completed(s, key, plan))
    ensures Clean(Completed(s, key, plan))
  {
    hide Inv, IntentOk, Overlay, WellAsked, Evolves, Resumable, Confined, Finishable;
    var saved := s.(intents := s.intents[key := plan]);
    SaveIntentKeepsInv(s, key, plan);
    PlanFinishes(saved, key);
    var t := Completed(s, key, plan);
    assert Completed(saved, key, plan) == t by {
      assert saved.intents[key := plan.(files := Files(plan), receipt := Some(ReceiptFor(s, plan)))] == t.intents;
    }
    EvolvesTransitive(s, saved, t);
    assert saved.intents - {key} == s.intents - {key};
    ConfinedAfterSaving(s, saved, t, key);
    ReceiptedIsResumable(t, key);
  }

  // ---- A request refused for good -------------------------------------------

  function Receipted(s: Repo, key: Key): Repo
    requires s.chain != [] && key in s.intents
  {
    var plan := s.intents[key];
    s.(intents := s.intents[key := plan.(files := Files(plan), receipt := Some(LastReceipt(s, plan)))])
  }

  /** The receipt of HEAD. */
  function LastReceipt(s: Repo, plan: Intent): Receipt
    requires s.chain != []
  {
    Receipt(plan.id, plan.path, |s.chain| - 1, |s.chain| - 1 != plan.parent, plan.request, plan.text, false)
  }

  /** A call that finds its files at HEAD has only its receipt to save. */
  lemma ReceiptFinishes(s: Repo, key: Key)
    requires Inv(s) && s.chain != [] && key in s.intents && s.intents[key].receipt.None?
    requires WellAsked(key, s.intents[key].request) && Finishable(s, key)
    requires forall file | file in Files(s.intents[key]) :: Has(Head(s), file)
    ensures var plan := s.intents[key];
            Serviced(s, key, plan.request, Done(LastReceipt(s, plan)), Receipted(s, key))
  {
    hide Inv, Overlay, WellAsked, Evolves, Resumable, Honest, Sound, Accepts, StagedOk, Has, Files;
    var plan, t := s.intents[key], Receipted(s, key);
    OwnOrParent(s, key);
    NewReceiptIsHonest(s, key, LastReceipt(s, plan));
    SaveReceiptKeepsInv(s, key, LastReceipt(s, plan));
    ReceiptedIsResumable(t, key);
    RetryIsServiced(s, key, plan.request, Done(LastReceipt(s, plan)), t);
  }

  lemma OwnOrParent(s: Repo, key: Key)
    requires Inv(s) && s.chain != [] && Finishable(s, key) && s.intents[key].receipt.None?
    ensures || |s.chain| - 1 == s.intents[key].parent
            || (|s.chain| - 1 == s.intents[key].parent + 1 && s.chain[|s.chain| - 1].trailer == Some(key))
  {
    hide Inv, Sound, StagedOk, Accepts;
    if s.chain[|s.chain| - 1].trailer == Some(key) {
      OwnCommitIsRecoverable(s, key);
    }
  }

  lemma ReplayFinishes(s: Repo, key: Key)
    requires Inv(s) && s.chain != [] && key in s.intents && s.intents[key].receipt.Some?
    requires WellAsked(key, s.intents[key].request)
    ensures var plan := s.intents[key];
            Serviced(s, key, plan.request, Done(plan.receipt.value.(replayed := true)), s)
  {
    hide Inv, Overlay, WellAsked, Resumable;
    ReceiptedIsResumable(s, key);
    PlanOf(s, key);
    var plan := s.intents[key];
    assert plan.receipt.value.(replayed := true).(replayed := false) == plan.receipt.value;
  }

  /** With nothing else in the working tree and the index, an unanswered plan on its own
      parent can be answered. */
  lemma ParentFinishes(s: Repo, key: Key) returns (t: Repo, receipt: Receipt)
    requires Inv(s) && s.chain != [] && s.index == Head(s) && s.work == Head(s) && key in s.intents
    requires s.intents[key].receipt.None? && s.intents[key].parent == |s.chain| - 1
    requires WellAsked(key, s.intents[key].request)
    ensures Serviced(s, key, s.intents[key].request, Done(receipt), t)
  {
    hide Inv, Overlay, WellAsked, Serviced, Has, Honest, Sound, Accepts, Files;
    var plan := s.intents[key];
    if Overlay(Head(s), Files(plan)) != Head(s) {
      PlanFinishes(s, key);
      t, receipt := Completed(s, key, plan), ReceiptFor(s, plan);
    } else {
      PlanOf(s, key);
      FittingAccepts(Head(s), Files(plan));
      OverlayHas(Head(s), Files(plan));
      ReceiptFinishes(s, key);
      t, receipt := Receipted(s, key), LastReceipt(s, plan);
    }
  }

  /** No call under the key is answered in anything that can happen from here on. */
  ghost predicate RefusedForGood(s: Repo, key: Key) {
    forall states, events, k | IsPath(s, states, events) && 0 <= k < |events| :: !Answered(events[k], key)
  }

  /** A planned request is refused for good exactly when it is stranded: it has no receipt, and
      HEAD is neither its parent nor its own commit. Otherwise it can still be answered, once
      its caller tries again with the working tree and index put back if need be. */
  lemma RefusedForGoodIff(s: Repo, key: Key)
    requires Inv(s) && s.chain != [] && key in s.intents && WellAsked(key, s.intents[key].request)
    ensures RefusedForGood(s, key) <==> Stranded(s, key)
  {
    hide Inv, Stranded, Step, WellAsked;
    if Stranded(s, key) {
      forall states, events, k | IsPath(s, states, events) && 0 <= k < |events| ensures !Answered(events[k], key) {
        StrandedForGood(s, states, events, |events|, key);
      }
    } else {
      var states, events := CanBeAnswered(s, key);
      assert Answered(events[|events| - 1], key);
    }
  }

  lemma CanBeAnswered(s: Repo, key: Key) returns (states: seq<Repo>, events: seq<Event>)
    requires Inv(s) && s.chain != [] && key in s.intents && WellAsked(key, s.intents[key].request)
    requires !Stranded(s, key)
    ensures IsPath(s, states, events) && events != [] && Answered(events[|events| - 1], key)
  {
    hide Inv, WellAsked, Serviced, Overlay, Has, Sound, Accepts, StagedOk, Files;
    var plan := s.intents[key];
    if plan.receipt.Some? {
      ReplayFinishes(s, key);
      states, events := [s, s], [Called(key, plan.request, Done(plan.receipt.value.(replayed := true)))];
    } else if plan.parent == |s.chain| - 1 {
      var back := s.(work := Head(s), index := Head(s));
      EditKeepsInv(s, Head(s), s.stray, Head(s));
      assert back == s.(work := Head(s), stray := s.stray, index := Head(s));
      var t, receipt := ParentFinishes(back, key);
      states, events := [s, back, t], [Edited, Called(key, plan.request, Done(receipt))];
    } else {
      OwnCommitIsRecoverable(s, key);
      ReceiptFinishes(s, key);
      states, events := [s, Receipted(s, key)], [Called(key, plan.request, Done(LastReceipt(s, plan)))];
    }
  }

  /** A call that is killed after its commit and before its receipt. */
  lemma PlanIsCommitted(s: Repo, key: Key, plan: Intent) returns (t: Repo)
    requires Inv(s) && s.chain != [] && Clean(s) && key !in s.intents && WellAsked(key, plan.request)
    requires plan.receipt.None? && plan.parent == |s.chain| - 1 && IntentOk(s.chain, key, plan)
    requires Overlay(Head(s), Files(plan)) != Head(s)
    ensures var tree := Overlay(Head(s), Files(plan));
            t == Repo(s.chain + [Commit(tree, Some(key))], tree, tree, s.stray, s.intents[key := plan])
    ensures Inv(t) && Serviced(s, key, plan.request, Crashed, t)
  {
    hide Inv, IntentOk, Overlay, WellAsked, Evolves, Finishable, Accepts;
    var tree := Overlay(Head(s), Files(plan));
    var saved := s.(intents := s.intents[key := plan]);
    SaveIntentKeepsInv(s, key, plan);
    PlanOf(saved, key);
    FittingAccepts(Head(s), Files(plan));
    var committed := saved.(chain := s.chain + [Commit(tree, Some(key))]);
    OwnCommitKeepsInv(saved, key);
    EvolvesTransitive(s, saved, committed);
    EditKeepsInv(committed, tree, s.stray, tree);
    t := committed.(work := tree, stray := s.stray, index := tree);
    EvolvesTransitive(s, committed, t);
    assert Files(plan)[..|Files(plan)|] == Files(plan);
    assert t.intents - {key} == s.intents - {key};
    hide Files;
    NewIsServiced(s, key, plan.request, Crashed, t);
  }

  /** It does happen: any allowed reservation of a fresh repository can be killed between its
      commit and its receipt; after any commit by anyone else its retry is refused, and will be
      for good, although its commit is in history. */
  lemma OvertakenIsStranded(s: Repo, text: string, request: Request, id: RecordId,
                            ascii: string, today: string, tree: Tree)
    returns (states: seq<Repo>, events: seq<Event>)
    requires Started(s) && s.chain != [] && request.Reserve? && WellAsked(RequestKey(text), request)
    requires Allocatable(s, request) && IsNext(s, request.kind, id)
    ensures IsRun(states, events) && states[0] == s && |events| == 3
    ensures var key := RequestKey(text);
            && events[0] == Called(key, request, Crashed) && events[1] == OtherCommit(tree)
            && events[2] == Called(key, request, Rejected(Invalid))
            && Carries(states[3], |s.chain|, key) && RefusedForGood(states[3], key)
  {
    hide Inv, Sound, Readable, RecordsOf, IsHighest, Overlay, Serviced, Scaffold.NewRecord, WellAsked, Planned, Honest;
    hide NewFiles, RefusedForGood;
    StartedHolds(s);
    var key := RequestKey(text);
    var path := Scaffold.NewPath(id, ascii);
    var content := Scaffold.NewRecord(id, request.title, ascii, request.body, request.tags, request.derivedFrom, today);
    NewRecordIsPlanned(s, text, request, id, ascii, today);
    var plan := NewIntent(|s.chain| - 1, request, id, path, content);
    NewFilesChange(s, text, plan);
    var s1 := PlanIsCommitted(s, key, plan);
    var s2 := s1.(chain := s1.chain + [Commit(tree, None)]);
    StepKeepsInv(s1, OtherCommit(tree), s2);
    StrandedIsRefused(s2, key);
    RefusedForGoodIff(s2, key);
    states := [s, s1, s2, s2];
    events := [Called(key, request, Crashed), OtherCommit(tree), Called(key, request, Rejected(Invalid))];
  }

  lemma StrandedIsRefused(s: Repo, key: Key)
    requires Inv(s) && s.chain != [] && Stranded(s, key) && WellAsked(key, s.intents[key].request)
    ensures Serviced(s, key, s.intents[key].request, Rejected(Invalid), s)
  {
    hide Inv, Overlay, WellAsked, Sound, Accepts, StagedOk, Partial;
    RetryIsServiced(s, key, s.intents[key].request, Rejected(Invalid), s);
  }

  // ---- A file that stays ----------------------------------------------------

  /** A call that plans a write and is killed in the middle of writing its first file. */
  lemma PlanIsKilled(s: Repo, key: Key, plan: Intent) returns (t: Repo)
    requires Inv(s) && s.chain != [] && Clean(s) && key !in s.intents && WellAsked(key, plan.request)
    requires plan.receipt.None? && plan.parent == |s.chain| - 1 && IntentOk(s.chain, key, plan)
    ensures t == s.(intents := s.intents[key := plan], stray := true)
    ensures Inv(t) && Serviced(s, key, plan.request, Crashed, t)
  {
    hide Inv, IntentOk, Overlay, WellAsked, Evolves, Resumable, Wrote;
    var saved := s.(intents := s.intents[key := plan]);
    SaveIntentKeepsInv(s, key, plan);
    t := saved.(stray := true);
    EditKeepsInv(saved, s.work, true, s.index);
    EvolvesTransitive(s, saved, t);
    PlanIsResumable(saved, key);
    assert Resumable(t, key) by { StrayResumes(saved, key); }
    assert saved.intents - {key} == s.intents - {key};
  }

  lemma StrayResumes(s: Repo, key: Key)
    requires s.chain != [] && Resumable(s, key)
    ensures Resumable(s.(stray := true), key)
  {
    hide Overlay;
    var files := Files(s.intents[key]);
    if exists n: nat | n <= |files| :: Partial(s, files, n) {
      var n: nat :| n <= |files| && Partial(s, files, n);
      assert Partial(s.(stray := true), files, n);
    }
  }

  /** From any clean, sound corpus with an id left, a reservation can be killed in the middle
      of writing, after which its retry is answered, and the file it left is still there. */
  lemma StrayOutlivesRetry(s: Repo, text: string, request: Request, id: RecordId, ascii: string, today: string)
    returns (states: seq<Repo>, events: seq<Event>)
    requires Started(s) && request.Reserve? && WellAsked(RequestKey(text), request)
    requires s.chain != [] && Allocatable(s, request) && IsNext(s, request.kind, id)
    ensures IsRun(states, events) && states[0] == s && |events| == 2
    ensures forall event | event in events :: event.Called? && event.key == RequestKey(text) && event.request == request
    ensures events[0].outcome.Crashed? && events[1].outcome.Done? && states[1].stray && states[2].stray
  {
    hide Inv, Sound, Readable, RecordsOf, IsHighest, Overlay, Serviced, Scaffold.NewRecord, WellAsked, Planned, Honest;
    StartedHolds(s);
    var key := RequestKey(text);
    var path := Scaffold.NewPath(id, ascii);
    var content := Scaffold.NewRecord(id, request.title, ascii, request.body, request.tags, request.derivedFrom, today);
    NewRecordIsPlanned(s, text, request, id, ascii, today);
    var plan := NewIntent(|s.chain| - 1, request, id, path, content);
    NewFilesChange(s, text, plan);
    var s1 := PlanIsKilled(s, key, plan);
    PlanFinishes(s1, key);
    var s2 := Completed(s1, key, plan);
    states := [s, s1, s2];
    events := [Called(key, request, Crashed), Called(key, request, Done(ReceiptFor(s1, plan)))];
  }

  lemma ReservationCompletes(s: Repo, text: string, request: Request, id: RecordId, ascii: string, today: string)
    returns (t: Repo, receipt: Receipt)
    requires Inv(s) && s.chain != [] && RequestKey(text) !in s.intents
    requires request.Reserve? && WellAsked(RequestKey(text), request)
    requires Allocatable(s, request) && IsNext(s, request.kind, id)
    ensures Serviced(s, RequestKey(text), request, Done(receipt), t)
    ensures Clean(t) && receipt.id == id && t.chain[..|s.chain|] == s.chain && |t.chain| == |s.chain| + 1
    ensures var path := Scaffold.NewPath(id, ascii);
            var content := Scaffold.NewRecord(id, request.title, ascii, request.body, request.tags,
                                              request.derivedFrom, today);
            Head(t) == Overlay(Head(s), NewFiles(id, path, content))
  {
    hide Inv, Sound, Readable, RecordsOf, IsHighest, Overlay, Serviced, Scaffold.NewRecord, WellAsked, Planned, Honest;
    var path := Scaffold.NewPath(id, ascii);
    var content := Scaffold.NewRecord(id, request.title, ascii, request.body, request.tags, request.derivedFrom, today);
    NewRecordIsPlanned(s, text, request, id, ascii, today);
    var plan := NewIntent(|s.chain| - 1, request, id, path, content);
    NewFilesChange(s, text, plan);
    PlanCompletes(s, RequestKey(text), plan);
    t, receipt := Completed(s, RequestKey(text), plan), ReceiptFor(s, plan);
  }

  lemma NewFilesChange(s: Repo, text: string, plan: Intent)
    requires s.chain != [] && plan.parent == |s.chain| - 1 && IntentOk(s.chain, RequestKey(text), plan)
    ensures Overlay(Head(s), Files(plan)) != Head(s)
  {
    hide Sound, TakesNext, Overlay, HasRecord;
    var file := WriteFile(plan.path, plan.text, None);
    assert Files(plan)[0] == file && file in Files(plan);
    OverlayAt(Head(s), Files(plan), plan.path);
  }

  // ---- A repeated id --------------------------------------------------------

  lemma EmptyIsSound()
    ensures Sound(map[]) && RecordsOf(map[]) == map[]
  {
    var none: map<RecordId, Record> := map[];
    forall chain ensures !IsCycle(none, chain) {
      assert IsCycle(none, chain) ==> Derives(none, chain[0], chain[1]);
    }
  }

  lemma EmptyAllows(s: Repo, request: Request)
    requires s.chain != [] && Head(s) == map[] && Clean(s) && request.Reserve? && request.derivedFrom == []
    ensures Allocatable(s, request) && IsNext(s, request.kind, RecordId(request.kind, 1))
  {
    EmptyIsSound();
  }

  /** Ids are not unique over all histories: when someone removes a reserved record, the
      next reservation is given its id again. From an empty corpus this happens to any
      request, under any two keys. */
  lemma RepeatedId(s: Repo, request: Request, first: string, second: string, ascii: string, today: string)
    returns (states: seq<Repo>, events: seq<Event>)
    requires Started(s) && Clean(s) && Head(s) == map[] && first != second
    requires request.Reserve? && request.derivedFrom == []
    requires WellAsked(RequestKey(first), request) && WellAsked(RequestKey(second), request)
    ensures IsRun(states, events) && states[0] == s && |events| == 3
    ensures Answered(events[0], RequestKey(first)) && Answered(events[2], RequestKey(second))
    ensures events[0].outcome.receipt.id == events[2].outcome.receipt.id
  {
    hide Allocatable, IsNext, Serviced, Overlay, Scaffold.NewRecord, NewFiles, Inv, WellAsked;
    EmptyAllows(s, request);
    StartedHolds(s);
    var id := RecordId(request.kind, 1);
    var s1, r1 := ReservationCompletes(s, first, request, id, ascii, today);
    ServicedGives(s, RequestKey(first), request, r1, s1);
    var s2 := s1.(chain := s1.chain + [Commit(map[], None)], work := map[], index := map[]);
    StepKeepsInv(s1, OtherCommit(map[]), s2);
    EmptyAllows(s2, request);
    var s3, r3 := ReservationCompletes(s2, second, request, id, ascii, today);
    states := [s, s1, s2, s3];
    events := [Called(RequestKey(first), request, Done(r1)), OtherCommit(map[]),
               Called(RequestKey(second), request, Done(r3))];
  }

  lemma ServicedGives(s: Repo, key: Key, request: Request, receipt: Receipt, t: Repo)
    requires s.chain != [] && Serviced(s, key, request, Done(receipt), t)
    ensures Inv(t) && t.chain != [] && t.intents.Keys == s.intents.Keys + {key}
  {
    hide IntentOk, Attributed, Evolves, Resumable, Overlay, Wrote, AddsAtMostOwnCommit, WellAsked, Files;
    forall other ensures other in t.intents <==> other in s.intents || other == key {
      assert other != key ==> (other in t.intents <==> other in t.intents - {key});
      assert other != key ==> (other in s.intents <==> other in s.intents - {key});
    }
  }

  // ---- An update over restored bytes ----------------------------------------

  /** Once one rewrite is committed, another that expects the same bytes of the record can
      be planned only when some later commit has put those bytes back. */
  lemma ReplannedOnlyIfRestored(s: Repo, i: nat, first: Request, second: Request,
                                verdictStatus: map<string, string>, accepted: bool, today: string)
    requires Inv(s) && s.chain != [] && !first.Reserve? && Carries(s, i, RewriteKey(first))
    requires !second.Reserve? && second.id == first.id && second.blob == first.blob
    requires Rewritable(s, second, verdictStatus, accepted, today)
    ensures exists k :: i < k < |s.chain| && Restores(s, k, first.id, first.blob)
  {
    hide Inv, Sound, WellFormed, RecordsOf, Render, Decodes, Readable;
    var record, _ := Rewriting(s, second, verdictStatus, accepted, today);
    assert Holds(Head(s), first.id, first.blob) by {
      assert record.path in Head(s) && Head(s)[record.path] == first.blob; }
    hide Holds, Rewritable;
    RewriteIsFelt(s, i, first);
    HeldAgainIffRestored(s, i, |s.chain| - 1, first.id, first.blob);
  }

  lemma RewriteCompletes(s: Repo, request: Request, verdictStatus: map<string, string>, accepted: bool, today: string)
    returns (t: Repo, receipt: Receipt)
    requires Inv(s) && s.chain != [] && RewriteKey(request) !in s.intents
    requires !request.Reserve? && WellAsked(RewriteKey(request), request)
    requires Rewritable(s, request, verdictStatus, accepted, today)
    requires RewrittenText(s, request, verdictStatus, accepted, today) != request.blob
    ensures Serviced(s, RewriteKey(request), request, Done(receipt), t)
    ensures Clean(t) && receipt.changed && receipt.blob == RewrittenText(s, request, verdictStatus, accepted, today)
  {
    hide Inv, Sound, WellFormed, RecordsOf, Overlay, Serviced, WellAsked, Render, IntentOk, Decodes, Readable;
    var record, text := Rewriting(s, request, verdictStatus, accepted, today);
    RewriteIsPlanned(s, request, record.path, text);
    var plan := RewriteIntent(|s.chain| - 1, request, record.path, text);
    var file := WriteFile(record.path, text, Some(request.blob));
    OverlayOfOne(Head(s), file);
    assert Head(s)[file.path] != Head(s)[file.path := file.text][file.path];
    PlanCompletes(s, RewriteKey(request), plan);
    t, receipt := Completed(s, RewriteKey(request), plan), ReceiptFor(s, plan);
  }

  lemma Rewriting(s: Repo, request: Request, verdictStatus: map<string, string>, accepted: bool, today: string)
    returns (record: Record, text: Content)
    requires s.chain != [] && !request.Reserve? && Rewritable(s, request, verdictStatus, accepted, today)
    ensures Clean(s) && Sound(s.work) && text == RewrittenText(s, request, verdictStatus, accepted, today)
    ensures record.path in s.work && record.path.RecordFile? && record.path.id == request.id
    ensures s.work[record.path] == request.blob && Decodes(record.path, text)
    ensures WellFormed(RecordsOf(s.work)[request.id := RecordAt(record.path, text)])
  {
    hide WellFormed, RecordsOf, Decodes, Readable, Render;
    SoundIsReadable(s.work);
    record := RecordsOf(s.work)[request.id];
    RecordInItsFile(s.work, request.id);
    RenderDecodes(RecordsOf(s.work), record, request, verdictStatus, accepted, today);
    text := Render(RecordsOf(s.work), record, request, verdictStatus, accepted, today).value;
  }

  /** `NoLostUpdate` cannot promise more: when the expected bytes are put back, a second
      rewrite that expects them is committed too, and drops what the first one wrote. */
  lemma RestoredBytesTakeBoth(s: Repo, first: Request, second: Request,
                              verdictStatus: map<string, string>, accepted: bool, today: string)
    returns (states: seq<Repo>, events: seq<Event>)
    requires Started(s) && Clean(s) && first != second && !first.Reserve? && !second.Reserve?
    requires WellAsked(RewriteKey(first), first) && Rewritable(s, first, verdictStatus, accepted, today)
    requires WellAsked(RewriteKey(second), second) && Rewritable(s, second, verdictStatus, accepted, today)
    requires RewrittenText(s, first, verdictStatus, accepted, today) != first.blob
    requires RewrittenText(s, second, verdictStatus, accepted, today) != second.blob
    ensures IsRun(states, events) && states[0] == s && |events| == 3
    ensures Answered(events[0], RewriteKey(first)) && Answered(events[2], RewriteKey(second))
    ensures events[0].outcome.receipt.changed && events[2].outcome.receipt.changed
    ensures events[0].outcome.receipt.blob == RewrittenText(s, first, verdictStatus, accepted, today)
    ensures events[2].outcome.receipt.blob == RewrittenText(s, second, verdictStatus, accepted, today)
  {
    hide Serviced, Inv, WellAsked, Rewritable, RewrittenText;
    StartedHolds(s);
    var s1, r1 := RewriteCompletes(s, first, verdictStatus, accepted, today);
    ServicedGives(s, RewriteKey(first), first, r1, s1);
    var s2 := s1.(chain := s1.chain + [Commit(Head(s), None)], work := s.work, index := s.index);
    StepKeepsInv(s1, OtherCommit(Head(s)), s2);
    SameCheckout(s, s2, second, verdictStatus, accepted, today);
    var s3, r3 := RewriteCompletes(s2, second, verdictStatus, accepted, today);
    states := [s, s1, s2, s3];
    events := [Called(RewriteKey(first), first, Done(r1)), OtherCommit(Head(s)),
               Called(RewriteKey(second), second, Done(r3))];
  }

  lemma SameCheckout(s: Repo, t: Repo, request: Request, verdictStatus: map<string, string>,
                       accepted: bool, today: string)
    requires s.chain != [] && t.chain != [] && Clean(s) && Clean(t) && s.work == t.work
    requires !request.Reserve? && Rewritable(s, request, verdictStatus, accepted, today)
    ensures Rewritable(t, request, verdictStatus, accepted, today)
    ensures RewrittenText(t, request, verdictStatus, accepted, today)
         == RewrittenText(s, request, verdictStatus, accepted, today)
  {
    hide Sound, WellFormed, Render;
  }
}
