/** Assessments over time: calls of the writer, edits and commits by anyone, and calls of
    `accept` storing evidence on the host, in any order. */
module AssessmentRuns {
  import opened Naming
  import opened Records
  import opened AcceptanceCache
  import opened Assessing
  import opened Writer
  import Commits
  import Evidence
  import Panels
  import PanelRuns
  import Runs

  datatype State = State(repo: Repo, evidence: Evidence.State)

  /** `ask` is what the host answers during a call. */
  datatype Event = Writing(event: Runs.Event, ask: string -> Panels.Reply) | Accepting(step: Evidence.Event)

  /** The host answers truly or not at all. */
  ghost predicate Truthful(ask: string -> Panels.Reply, evidence: Evidence.State) {
    forall task :: ask(task).Answered() ==> ask(task) == Panels.Live(PanelRuns.Artifacts(evidence), task)
  }

  /** This call plans an assessment. */
  predicate Assesses(s: Repo, event: Runs.Event) {
    && event.Called? && event.request.Assess? && event.key == RewriteKey(event.request)
    && event.key !in s.intents && !event.outcome.Rejected?
  }

  ghost predicate Step(s: State, event: Event, t: State, blobId: Content -> string)
    requires s.repo.chain != []
  {
    match event
    case Writing(event, ask) =>
      && Runs.Step(s.repo, event, t.repo) && t.evidence == s.evidence && Truthful(ask, s.evidence)
      && (Assesses(s.repo, event) ==> Cites(s.repo.work, event.request, ask, blobId))
    case Accepting(step) => Evidence.Next(s.evidence, step, t.evidence) && t.repo == s.repo
  }

  ghost predicate IsRun(states: seq<State>, events: seq<Event>, blobId: Content -> string) {
    && |states| == |events| + 1
    && Runs.Started(states[0].repo) && states[0].evidence == Evidence.State(map[], map[])
    && forall i :: 0 <= i < |events| ==>
      states[i].repo.chain != [] && Step(states[i], events[i], states[i + 1], blobId)
  }

  /** At this moment the host stores evidence that accepts what the request cites, as the tree has it. */
  predicate CitedAt(s: State, tree: Tree, request: Request, blobId: Content -> string)
    requires request.Assess?
  {
    Cites(tree, request, Asking(PanelRuns.Artifacts(s.evidence)), blobId)
  }

  /** Every assessment in the log was planned on a corpus whose citation was then accepted. */
  ghost predicate PlansCite(states: seq<State>, j: nat, blobId: Content -> string)
    requires j < |states|
  {
    forall request: Request |
      request.Assess? && RewriteKey(request) in states[j].repo.intents
      && states[j].repo.intents[RewriteKey(request)].parent < |states[j].repo.chain| ::
      CitedBefore(states, j, states[j].repo.chain[states[j].repo.intents[RewriteKey(request)].parent].tree,
                  request, blobId)
  }

  ghost predicate CitedBefore(states: seq<State>, j: nat, tree: Tree, request: Request, blobId: Content -> string)
    requires j < |states| && request.Assess?
  {
    exists k :: 0 <= k < j && CitedAt(states[k], tree, request, blobId)
  }

  lemma StepKeepsInv(s: State, event: Event, t: State, blobId: Content -> string)
    requires Inv(s.repo) && s.repo.chain != [] && Step(s, event, t, blobId)
    ensures Inv(t.repo) && Evolves(s.repo, t.repo) && t.repo.chain != []
  {
    hide Inv, Evolves, Runs.Step, Cites;
    if event.Writing? {
      Runs.StepKeepsInv(s.repo, event.event, t.repo);
    } else {
      Runs.EvolvesItself(s.repo);
    }
    Runs.NotEmpty(t.repo);
  }

  lemma {:induction false} RunKeepsInv(states: seq<State>, events: seq<Event>, blobId: Content -> string, i: nat)
    requires IsRun(states, events, blobId) && i < |states|
    ensures Inv(states[i].repo) && states[i].repo.chain != []
  {
    hide Step, Inv;
    if i > 0 {
      RunKeepsInv(states, events, blobId, i - 1);
      StepKeepsInv(states[i - 1], events[i - 1], states[i], blobId);
    } else {
      Runs.StartedHolds(states[0].repo);
      Runs.NotEmpty(states[0].repo);
    }
  }

  /** A truthful answer that accepts is what the host stores. */
  lemma TruthfulCites(s: State, tree: Tree, request: Request, ask: string -> Panels.Reply, blobId: Content -> string)
    requires request.Assess? && Truthful(ask, s.evidence) && Cites(tree, request, ask, blobId)
    ensures CitedAt(s, tree, request, blobId)
  {
    hide Records.Readable, RecordsOf, IdText, Panels.Accepts, PanelRuns.Artifacts, Panels.Live;
    var cited := RecordsOf(tree)[request.verdict.research];
    var task := Task(cited).value;
    Panels.AcceptedIsAnswered(Item(IdText(request.verdict.research), task, blobId(cited.blob)), ask(task));
  }

  /** A plan that a step adds is the one its call makes, on the HEAD it finds. */
  lemma NewPlanIs(s: State, event: Event, t: State, request: Request, blobId: Content -> string)
    requires Inv(s.repo) && s.repo.chain != [] && Step(s, event, t, blobId) && request.Assess?
    requires RewriteKey(request) !in s.repo.intents && RewriteKey(request) in t.repo.intents
    ensures t.repo.intents[RewriteKey(request)].parent == |s.repo.chain| - 1
    ensures CitedAt(s, Head(s.repo), request, blobId)
  {
    hide Inv, Evolves, Resumable, Finishable, Cites, Truthful, Wrote, Overlay;
    var key := RewriteKey(request);
    assert event.Writing?;
    var called := event.event;
    Runs.NewPlanIsCalled(s.repo, called, t.repo, key);
    assert called.request == request;
    TruthfulCites(s, s.repo.work, request, event.ask, blobId);
  }

  lemma OldPlanIs(s: State, event: Event, t: State, key: Key, blobId: Content -> string)
    requires Inv(s.repo) && s.repo.chain != [] && Step(s, event, t, blobId) && key in s.repo.intents
    ensures key in t.repo.intents && t.repo.intents[key].parent == s.repo.intents[key].parent
    ensures s.repo.chain <= t.repo.chain && s.repo.intents[key].parent < |s.repo.chain|
  {
    hide Inv, Step;
    StepKeepsInv(s, event, t, blobId);
    PlanOf(s.repo, key);
  }

  lemma {:induction false} RunPlansCite(states: seq<State>, events: seq<Event>, blobId: Content -> string, j: nat)
    requires IsRun(states, events, blobId) && j < |states|
    ensures PlansCite(states, j, blobId)
  {
    hide Step, Inv, CitedAt;
    if j > 0 {
      RunPlansCite(states, events, blobId, j - 1);
      RunKeepsInv(states, events, blobId, j - 1);
      var s, t := states[j - 1], states[j];
      StepKeepsInv(s, events[j - 1], t, blobId);
      forall request: Request |
        request.Assess? && RewriteKey(request) in t.repo.intents
        && t.repo.intents[RewriteKey(request)].parent < |t.repo.chain|
        ensures CitedBefore(states, j, t.repo.chain[t.repo.intents[RewriteKey(request)].parent].tree, request, blobId)
      {
        var key := RewriteKey(request);
        if key in s.repo.intents {
          OldPlanIs(s, events[j - 1], t, key, blobId);
          assert CitedBefore(states, j - 1, s.repo.chain[s.repo.intents[key].parent].tree, request, blobId);
        } else {
          NewPlanIs(s, events[j - 1], t, request, blobId);
          assert CitedAt(states[j - 1], Head(s.repo), request, blobId);
        }
      }
    }
  }

  /** Over every run: a committed assessment replaced a corpus in which what it cites is a
      record whose task, at some earlier moment of the run, stored evidence for exactly the
      README that corpus holds. */
  lemma CommittedAssessmentsAreCited(states: seq<State>, events: seq<Event>, blobId: Content -> string,
                                     j: nat, p: nat, request: Request)
    requires IsRun(states, events, blobId) && j < |states| && request.Assess?
    requires Commits.Carries(states[j].repo, p, RewriteKey(request))
    ensures 0 < p < |states[j].repo.chain|
    ensures exists k :: 0 <= k < j && CitedAt(states[k], states[j].repo.chain[p - 1].tree, request, blobId)
  {
    hide IsRun, Inv, CitedAt, Planned, Overlay;
    RunKeepsInv(states, events, blobId, j);
    RunPlansCite(states, events, blobId, j);
    Commits.CommitHasPlan(states[j].repo, p);
    assert CitedBefore(states, j, states[j].repo.chain[p - 1].tree, request, blobId);
  }

  // ---- While evidence is write-once -----------------------------------------

  predicate AlwaysExclusive(states: seq<State>) {
    forall i :: 0 <= i < |states| ==> Evidence.Exclusive(states[i].evidence)
  }

  lemma {:induction false} EvidenceOnlyAdds(states: seq<State>, events: seq<Event>, blobId: Content -> string,
                                           i: nat, j: nat)
    requires IsRun(states, events, blobId) && i <= j < |states| && AlwaysExclusive(states)
    ensures Evidence.NoRace(states[j].evidence) && Evidence.AnswersHold(states[j].evidence)
    ensures Evidence.OnlyAdds(states[i].evidence, states[j].evidence)
    decreases j, i
  {
    hide Evidence.Exclusive, Runs.Step, Cites, Truthful;
    if j > 0 {
      EvidenceOnlyAdds(states, events, blobId, if i < j then i else j - 1, j - 1);
      if events[j - 1].Accepting? {
        hide Evidence.NoRace, Evidence.AnswersHold, Evidence.Next;
        Evidence.StepOnlyAdds(states[j - 1].evidence, events[j - 1].step, states[j].evidence);
      }
    }
  }

  lemma CitedStays(s: State, t: State, tree: Tree, request: Request, blobId: Content -> string)
    requires request.Assess? && CitedAt(s, tree, request, blobId) && Evidence.OnlyAdds(s.evidence, t.evidence)
    ensures CitedAt(t, tree, request, blobId)
  {
    hide Records.Readable, RecordsOf, IdText;
  }

  /** And it is stored still, as long as calls of `accept` on one task never overlap between
      read and write. */
  lemma CommittedAssessmentsStayCited(states: seq<State>, events: seq<Event>, blobId: Content -> string,
                                      j: nat, p: nat, request: Request)
    requires IsRun(states, events, blobId) && j < |states| && request.Assess? && AlwaysExclusive(states)
    requires Commits.Carries(states[j].repo, p, RewriteKey(request))
    ensures 0 < p < |states[j].repo.chain|
    ensures CitedAt(states[j], states[j].repo.chain[p - 1].tree, request, blobId)
  {
    hide IsRun, CitedAt, AlwaysExclusive;
    CommittedAssessmentsAreCited(states, events, blobId, j, p, request);
    var k :| 0 <= k < j && CitedAt(states[k], states[j].repo.chain[p - 1].tree, request, blobId);
    EvidenceOnlyAdds(states, events, blobId, k, j);
    CitedStays(states[k], states[j], states[j].repo.chain[p - 1].tree, request, blobId);
  }
}
