/** Runs of the primary-mode writer: calls under any keys, crashes, retries, and edits and
    commits by anyone else, in any order. */
module Runs {
  import opened Basics
  import opened Records
  import opened Writer
  import opened Commits

  /** What can happen between two quiet states. A call that crashes ends in any state one
      of its durable steps leaves. Nobody else writes a request key into a commit. */
  datatype Event =
    | Edited
    | OtherCommit(tree: Tree)
    | Called(key: Key, request: Request, outcome: Outcome)

  ghost predicate Step(s: Repo, event: Event, t: Repo)
    requires s.chain != []
  {
    match event
    case Edited => t == s.(work := t.work, stray := t.stray, index := t.index)
    case OtherCommit(tree) =>
      t == s.(chain := s.chain + [Commit(tree, None)], work := t.work, stray := t.stray, index := t.index)
    case Called(key, request, outcome) => Serviced(s, key, request, outcome, t)
  }

  /** A repository no request has been made of. */
  predicate Started(s: Repo) {
    s.chain != [] && s.intents == map[] && forall i :: 0 <= i < |s.chain| ==> s.chain[i].trailer.None?
  }

  ghost predicate IsRun(states: seq<Repo>, events: seq<Event>) {
    && |states| == |events| + 1
    && Started(states[0])
    && forall i :: 0 <= i < |events| ==> states[i].chain != [] && Step(states[i], events[i], states[i + 1])
  }

  lemma StartedHolds(s: Repo)
    requires Started(s)
    ensures Inv(s)
  {
    hide IntentOk;
  }

  lemma EvolvesItself(s: Repo)
    ensures Evolves(s, s)
  {
  }

  lemma StepKeepsInv(s: Repo, event: Event, t: Repo)
    requires Inv(s) && s.chain != [] && Step(s, event, t)
    ensures Inv(t) && Evolves(s, t)
  {
    hide Inv, Evolves, Confined;
    match event
    case Edited => EditKeepsInv(s, t.work, t.stray, t.index);
    case OtherCommit(tree) =>
      OtherCommitKeepsInv(s, tree);
      var u := s.(chain := s.chain + [Commit(tree, None)]);
      EditKeepsInv(u, t.work, t.stray, t.index);
      EvolvesTransitive(s, u, t);
    case Called(_, _, _) =>
  }

  /** Every state of every run satisfies the invariant. */
  lemma {:induction false} RunKeepsInv(states: seq<Repo>, events: seq<Event>, i: nat)
    requires IsRun(states, events) && i < |states|
    ensures Inv(states[i])
  {
    hide Evolves, Step, IntentOk;
    if i > 0 {
      RunKeepsInv(states, events, i - 1);
      StepKeepsInv(states[i - 1], events[i - 1], states[i]);
    }
  }

  lemma {:induction false} RunEvolves(states: seq<Repo>, events: seq<Event>, i: nat, j: nat)
    requires IsRun(states, events) && i <= j < |states|
    ensures Evolves(states[i], states[j])
  {
    hide Inv, Step;
    if i < j {
      RunEvolves(states, events, i, j - 1);
      RunKeepsInv(states, events, j - 1);
      StepKeepsInv(states[j - 1], events[j - 1], states[j]);
      EvolvesTransitive(states[i], states[j - 1], states[j]);
    }
  }

  // ---- Exactly once ---------------------------------------------------------

  predicate Answered(event: Event, key: Key) {
    event.Called? && event.key == key && event.outcome.Done?
  }

  /** Exactly once across crashes: all answers ever given under a key name the same record,
      path and commit, in which the request's text sits, and history never again holds
      another commit with that key. */
  lemma AnswersAgree(states: seq<Repo>, events: seq<Event>, i: nat, j: nat, key: Key)
    requires IsRun(states, events) && i <= j < |events|
    requires Answered(events[i], key) && Answered(events[j], key)
    ensures var first, second := events[i].outcome.receipt, events[j].outcome.receipt;
            && first.(replayed := false) == second.(replayed := false)
            && events[i].request == events[j].request
            && (forall later, k | j < later < |states| && Carries(states[later], k, key) :: k == first.commit)
  {
    hide Inv, Evolves, Resumable, Confined;
    EvolvesKeepsReceipt(states, events, i + 1, j + 1, key);
    forall later, k | j < later < |states| && Carries(states[later], k, key)
      ensures k == events[i].outcome.receipt.commit
    {
      EvolvesKeepsReceipt(states, events, i + 1, later, key);
      RunKeepsInv(states, events, later);
      OneCommitPerKey(states[later], key, k, k);
    }
  }

  lemma EvolvesKeepsReceipt(states: seq<Repo>, events: seq<Event>, i: nat, j: nat, key: Key)
    requires IsRun(states, events) && i <= j < |states|
    requires key in states[i].intents && states[i].intents[key].receipt.Some?
    ensures key in states[j].intents && states[j].intents[key].receipt == states[i].intents[key].receipt
  {
    hide Inv, Step;
    RunEvolves(states, events, i, j);
  }

  // ---- Retries --------------------------------------------------------------

  predicate Calls(event: Event, key: Key) {
    event.Called? && event.key == key
  }

  /** Nothing a retry looks at is changed. */
  predicate Untouched(s: Repo, t: Repo) {
    t.chain == s.chain && t.work == s.work && t.index == s.index
  }

  /** A request planned once is never refused to its caller's retries, each of which answers
      or crashes again, while nothing else changes HEAD, the index or the working tree
      before its receipt is saved: neither calls under other keys nor anyone's edits. */
  lemma {:induction false} RetriesAreNotRefused(
    states: seq<Repo>, events: seq<Event>, i: nat, j: nat, key: Key, request: Request)
    requires IsRun(states, events) && i < j < |states| && WellAsked(key, request)
    requires Calls(events[i], key) && events[i].request == request
    requires key !in states[i].intents && !events[i].outcome.Rejected?
    requires forall m | i < m < j && key in states[m].intents && states[m].intents[key].receipt.None? ::
               Calls(events[m], key) || Untouched(states[m], states[m + 1])
    ensures forall m | i <= m < j && Calls(events[m], key) && events[m].request == request ::
              !events[m].outcome.Rejected?
    ensures states[j].chain != [] && Resumable(states[j], key)
    ensures key in states[j].intents && states[j].intents[key].request == request
  {
    hide Inv, Evolves, Resumable, Confined, WellAsked;
    RunEvolves(states, events, i + 1, j);
    ResumableIsPlanned(states, events, i, key);
    if i + 1 < j {
      RetriesAreNotRefused(states, events, i, j - 1, key, request);
      RunKeepsInv(states, events, j - 1);
      StepKeepsResumable(states[j - 1], events[j - 1], states[j], key);
      RequestStays(states, events, j - 1, j, key);
    }
  }

  lemma StepKeepsResumable(s: Repo, event: Event, t: Repo, key: Key)
    requires Inv(s) && s.chain != [] && Step(s, event, t)
    requires Resumable(s, key) && WellAsked(key, s.intents[key].request)
    requires s.intents[key].receipt.None? ==> Calls(event, key) || Untouched(s, t)
    ensures t.chain != [] && Resumable(t, key)
    ensures Calls(event, key) && event.request == s.intents[key].request ==> !event.outcome.Rejected?
  {
    hide Inv, Evolves, Confined, WellAsked, Finishable, Partial;
    StepKeepsInv(s, event, t);
    NotEmpty(t);
    PlanStays(s, event, t, key);
    if !Calls(event, key) && s.intents[key].receipt.None? {
      UntouchedIsResumable(s, t, key);
    }
  }

  lemma NotEmpty(s: Repo)
    requires Inv(s)
    ensures s.chain != []
  {
    hide IntentOk, Attributed;
  }

  lemma UntouchedIsResumable(s: Repo, t: Repo, key: Key)
    requires s.chain != [] && Untouched(s, t) && Resumable(s, key)
    requires key in t.intents && t.intents[key] == s.intents[key]
    ensures Resumable(t, key)
  {
    hide Overlay;
    var files := Files(s.intents[key]);
    if s.intents[key].receipt.None? && s.intents[key].parent == |s.chain| - 1 {
      var n: nat :| n <= |files| && Partial(s, files, n);
      assert Partial(t, files, n);
    }
  }

  /** A plan is touched only by calls under its key, and its receipt never changes. */
  lemma PlanStays(s: Repo, event: Event, t: Repo, key: Key)
    requires Inv(s) && s.chain != [] && Step(s, event, t) && key in s.intents
    ensures key in t.intents && SamePlan(s.intents[key], t.intents[key])
    ensures s.intents[key].receipt.Some? ==> t.intents[key].receipt == s.intents[key].receipt
    ensures !Calls(event, key) ==> t.intents[key] == s.intents[key]
  {
    hide Inv, Confined, Files;
    StepKeepsInv(s, event, t);
    if event.Called? {
      OtherPlansStay(s, t, event.key, key);
    }
  }

  lemma NewPlanIsCalled(s: Repo, event: Event, t: Repo, key: Key)
    requires s.chain != [] && Step(s, event, t) && key !in s.intents && key in t.intents
    ensures Calls(event, key)
  {
    hide Inv, Evolves, Resumable, Finishable, Confined;
    if event.Called? {
      OtherPlansStay(s, t, event.key, key);
    }
  }

  lemma OtherPlansStay(s: Repo, t: Repo, key: Key, other: Key)
    requires s.chain != [] && Confined(s, t, key)
    ensures other != key ==>
              && (other in t.intents <==> other in s.intents)
              && (other in s.intents ==> t.intents[other] == s.intents[other])
  {
    var before, after := s.intents - {key}, t.intents - {key};
    assert other != key ==> (other in before <==> other in s.intents) && (other in after <==> other in t.intents);
    assert other in before && other in after ==> before[other] == s.intents[other] && after[other] == t.intents[other];
  }

  lemma ResumableIsPlanned(states: seq<Repo>, events: seq<Event>, i: nat, key: Key)
    requires IsRun(states, events) && i < |events|
    ensures states[i + 1].chain != []
    ensures Resumable(states[i + 1], key) ==> key in states[i + 1].intents
  {
    RunKeepsInv(states, events, i + 1);
  }

  lemma RequestStays(states: seq<Repo>, events: seq<Event>, i: nat, j: nat, key: Key)
    requires IsRun(states, events) && i <= j < |states| && key in states[i].intents
    ensures key in states[j].intents && states[j].intents[key].request == states[i].intents[key].request
  {
    hide Inv, Step;
    RunEvolves(states, events, i, j);
  }

  // ---- Overtaken plans ------------------------------------------------------

  /** No receipt, HEAD is no longer the plan's parent, and not its own commit either. */
  predicate Stranded(s: Repo, key: Key)
    requires s.chain != []
  {
    && key in s.intents && s.intents[key].receipt.None?
    && s.intents[key].parent != |s.chain| - 1 && s.chain[|s.chain| - 1].trailer != Some(key)
  }

  /** A commit that is not the key's own strands its unanswered plan, nothing else does, and
      nothing brings it back. */
  lemma StrandingIs(s: Repo, event: Event, t: Repo, key: Key)
    requires Inv(s) && s.chain != [] && Step(s, event, t) && key in s.intents && s.intents[key].receipt.None?
    ensures t.chain != []
    ensures Stranded(t, key) <==> Stranded(s, key) || (t.chain != s.chain && !Calls(event, key))
    ensures Stranded(s, key) && Calls(event, key) ==> !event.outcome.Done?
  {
    hide Inv, Evolves, WellAsked, Resumable, Overlay, Wrote, Sound, StagedOk, SamePlan;
    StepKeepsInv(s, event, t);
    NotEmpty(t);
    PlanStays(s, event, t, key);
    PlanOf(s, key);
    PlanParentStays(s, t, key);
    if s.chain[|s.chain| - 1].trailer == Some(key) { OwnCommitIsRecoverable(s, key); }
  }

  lemma PlanParentStays(s: Repo, t: Repo, key: Key)
    requires key in s.intents && key in t.intents && SamePlan(s.intents[key], t.intents[key])
    ensures t.intents[key].parent == s.intents[key].parent
  {
  }

  /** What can happen from a state on. */
  ghost predicate IsPath(s: Repo, states: seq<Repo>, events: seq<Event>) {
    && |states| == |events| + 1
    && states[0] == s
    && forall i :: 0 <= i < |events| ==> states[i].chain != [] && Step(states[i], events[i], states[i + 1])
  }

  lemma {:induction false} PathKeepsInv(s: Repo, states: seq<Repo>, events: seq<Event>, i: nat)
    requires Inv(s) && IsPath(s, states, events) && i < |states|
    ensures Inv(states[i]) && states[i].chain != []
  {
    hide Evolves, Step, Inv;
    if i > 0 {
      PathKeepsInv(s, states, events, i - 1);
      StepKeepsInv(states[i - 1], events[i - 1], states[i]);
    }
    NotEmpty(states[i]);
  }

  /** Once stranded, a request is refused for good, even if its commit is in history: no
      later call under its key is answered, whatever anyone does. */
  lemma {:induction false} StrandedForGood(s: Repo, states: seq<Repo>, events: seq<Event>, m: nat, key: Key)
    requires Inv(s) && s.chain != [] && IsPath(s, states, events) && m < |states| && Stranded(s, key)
    ensures states[m].chain != [] && Stranded(states[m], key)
    ensures forall k | 0 <= k < m :: !Answered(events[k], key)
  {
    hide Inv, Step, Stranded;
    if m > 0 {
      StrandedForGood(s, states, events, m - 1, key);
      PathKeepsInv(s, states, events, m - 1);
      StrandedIsPlanned(states[m - 1], key);
      StrandingIs(states[m - 1], events[m - 1], states[m], key);
    }
  }

  lemma StrandedIsPlanned(s: Repo, key: Key)
    requires s.chain != [] && Stranded(s, key)
    ensures key in s.intents && s.intents[key].receipt.None?
  {
  }

  /** Something else than a call under the key adds a commit. */
  predicate Overtakes(states: seq<Repo>, events: seq<Event>, k: nat, key: Key)
    requires k < |events| < |states|
  {
    states[k + 1].chain != states[k].chain && !Calls(events[k], key)
  }

  lemma {:induction false} StrandedIffOvertaken(states: seq<Repo>, events: seq<Event>, i: nat, m: nat, key: Key)
    requires IsRun(states, events) && i <= m < |states| && states[i].chain != []
    requires key in states[i].intents && !Stranded(states[i], key)
    requires key in states[m].intents && states[m].intents[key].receipt.None?
    ensures states[m].chain != []
    ensures Stranded(states[m], key) <==> exists k :: i <= k < m && Overtakes(states, events, k, key)
  {
    hide Inv, Step, Stranded;
    if i < m {
      RunKeepsInv(states, events, m - 1);
      NotEmpty(states[m - 1]);
      RunEvolves(states, events, i, m - 1);
      PlanStays(states[m - 1], events[m - 1], states[m], key);
      StrandedIffOvertaken(states, events, i, m - 1, key);
      StrandingIs(states[m - 1], events[m - 1], states[m], key);
      if exists k :: i <= k < m && Overtakes(states, events, k, key) {
        var k :| i <= k < m && Overtakes(states, events, k, key);
        assert k < m - 1 || Overtakes(states, events, m - 1, key);
      }
      assert Overtakes(states, events, m - 1, key) <==>
             states[m].chain != states[m - 1].chain && !Calls(events[m - 1], key);
    }
  }

  /** What others wrote and staged does not stand in the way: every destination accepts its
      file, the corpus with them is sound, and nothing else is staged. */
  ghost predicate Unhindered(s: Repo, plan: Intent)
    requires s.chain != []
  {
    && (forall file | file in Files(plan) :: Accepts(s.work, file))
    && Sound(Overlay(s.work, Files(plan)))
    && StagedOk(s.index, Head(s), Files(plan))
  }

  /** After a request was planned, and whatever calls under any keys, edits and commits came
      since, a retry that does not crash is answered exactly when its receipt is saved, or
      no commit but its own came since and, where its own has not come either, what others
      wrote and staged does not stand in the way. */
  lemma RetryAmongOthersIff(states: seq<Repo>, events: seq<Event>, i: nat, m: nat, key: Key, request: Request)
    requires IsRun(states, events) && i < m < |events| && WellAsked(key, request)
    requires Calls(events[i], key) && events[i].request == request
    requires key !in states[i].intents && !events[i].outcome.Rejected?
    requires Calls(events[m], key) && events[m].request == request && !events[m].outcome.Crashed?
    ensures key in states[m].intents && states[m].chain != []
    ensures var plan := states[m].intents[key];
            events[m].outcome.Done? <==>
            || plan.receipt.Some?
            || (&& (forall k :: i < k < m ==> !Overtakes(states, events, k, key))
                && (states[m].chain == states[i].chain ==> Unhindered(states[m], plan)))
  {
    hide Inv, Evolves, Resumable, Confined, WellAsked, Sound, StagedOk, Accepts;
    ResumableIsPlanned(states, events, i, key);
    FreshIsNotStranded(states, events, i, key);
    RunEvolves(states, events, i, m);
    RequestStays(states, events, i + 1, m, key);
    ParentIs(states, events, i, m, key);
    if states[m].intents[key].receipt.None? {
      StrandedIffOvertaken(states, events, i + 1, m, key);
    }
    assert Step(states[m], events[m], states[m + 1]);
  }

  lemma FreshIsNotStranded(states: seq<Repo>, events: seq<Event>, i: nat, key: Key)
    requires IsRun(states, events) && i < |events| && states[i + 1].chain != []
    requires Calls(events[i], key) && key !in states[i].intents && !events[i].outcome.Rejected?
    ensures key in states[i + 1].intents && !Stranded(states[i + 1], key)
    ensures states[i].chain != [] && states[i + 1].intents[key].parent == |states[i].chain| - 1
  {
    hide Inv, Evolves, Confined, WellAsked, Partial;
    assert Step(states[i], events[i], states[i + 1]);
  }

  /** HEAD is the plan's parent exactly while history is what it was planned on. */
  lemma ParentIs(states: seq<Repo>, events: seq<Event>, i: nat, m: nat, key: Key)
    requires IsRun(states, events) && i < m < |states| && states[i].chain != []
    requires key in states[i + 1].intents && states[i + 1].intents[key].parent == |states[i].chain| - 1
    ensures key in states[m].intents
    ensures states[m].intents[key].parent == |states[m].chain| - 1 <==> states[m].chain == states[i].chain
  {
    hide Inv, Step;
    RunEvolves(states, events, i, m);
    RunEvolves(states, events, i + 1, m);
  }

  // ---- A temporary file left behind -----------------------------------------

  /** No call takes a temporary file away. */
  lemma {:induction false} StrayStays(states: seq<Repo>, events: seq<Event>, i: nat, j: nat)
    requires IsRun(states, events) && i <= j < |states| && states[i].stray
    requires forall m | i <= m < j :: events[m].Called?
    ensures states[j].stray
  {
    hide Inv, Evolves, Resumable, Finishable;
    if i < j {
      StrayStays(states, events, i, j - 1);
    }
  }

  /** After a call is killed in the middle of writing a file, every request under a fresh key
      is refused until someone takes the temporary file away, although retries of what was
      planned are not. */
  lemma StrayBlocksNewRequests(states: seq<Repo>, events: seq<Event>, i: nat, m: nat)
    requires IsRun(states, events) && i <= m < |events| && states[i].stray
    requires forall n | i <= n <= m :: events[n].Called?
    ensures events[m].key !in states[m].intents ==> events[m].outcome.Rejected? && states[m + 1] == states[m]
    ensures states[m].chain != []
    ensures WellAsked(events[m].key, events[m].request) && Resumable(states[m], events[m].key)
            && states[m].intents[events[m].key].request == events[m].request ==>
              !events[m].outcome.Rejected? && Resumable(states[m + 1], events[m].key)
  {
    hide Inv, Evolves, Resumable, Finishable, WellAsked;
    StrayStays(states, events, i, m);
    RunKeepsInv(states, events, m + 1);
    ResumableIsStored(states[m], events[m].key);
  }

  lemma ResumableIsStored(s: Repo, key: Key)
    requires s.chain != []
    ensures Resumable(s, key) ==> key in s.intents
  {
  }

  // ---- Soundness ------------------------------------------------------------

  predicate OnlyCallsAndEdits(events: seq<Event>) {
    forall i :: 0 <= i < |events| ==> !events[i].OtherCommit?
  }

  /** From a sound corpus, while nobody else commits, every HEAD the writer's calls reach is
      sound: numbered 1 to n in each kind, its references resolved, its lineage acyclic. */
  lemma {:induction false} EveryHeadIsSound(states: seq<Repo>, events: seq<Event>, i: nat)
    requires IsRun(states, events) && OnlyCallsAndEdits(events) && i < |states|
    requires Sound(Head(states[0]))
    ensures states[i].chain != [] && Sound(Head(states[i]))
  {
    hide Sound, IntentOk, Evolves, Resumable, Attributed;
    RunKeepsInv(states, events, i);
    if i > 0 {
      EveryHeadIsSound(states, events, i - 1);
      if states[i].chain != states[i - 1].chain {
        WriterCommitIsSound(states[i], |states[i].chain| - 1);
      }
    }
  }

  /** A call changes the working tree only where a file of its plan says what was there:
      a path that held nothing and was to be created, or exactly the bytes to be replaced. */
  lemma CallsDoNotClobber(states: seq<Repo>, events: seq<Event>, i: nat, path: Path)
    requires IsRun(states, events) && i < |events| && events[i].Called?
    requires !Same(states[i + 1].work, states[i].work, path)
    ensures events[i].key in states[i + 1].intents
    ensures exists file :: file in Files(states[i + 1].intents[events[i].key]) && file.path == path
                           && Fits(states[i].work, file) && Has(states[i + 1].work, file)
  {
    hide Inv, Evolves, Resumable, Overlay, Accepts;
    RunKeepsInv(states, events, i + 1);
    PlanOf(states[i + 1], events[i].key);
    var files := Files(states[i + 1].intents[events[i].key]);
    var n: nat :| n <= |files| && states[i + 1].work == Overlay(states[i].work, files[..n]);
    NoClobber(states[i].work, files, n, path);
  }
}
