/** Acceptance evidence (`acceptance.rs`, `plugin.rs`): what it must say, and how `accept`
    stores it on a task of the host, which cannot compare and set. */
module Evidence {
  /** A stored `research-acceptance.json`. */
  datatype Acceptance = Acceptance(
    research: string, commit: string, blob: string, run: string, digests: map<string, string>)

  /** `Acceptance::verify`: the one bar for accepted. */
  predicate Verifies(acceptance: Acceptance, research: string, blob: string) {
    acceptance.research == research && acceptance.blob == blob
  }

  /** `evidence_differences` is empty: the commit is no part of the identity. */
  predicate SameEvidence(a: Acceptance, b: Acceptance) {
    a.research == b.research && a.blob == b.blob && a.run == b.run && a.digests == b.digests
  }

  // ---- Interleaved calls ----------------------------------------------------

  /** Where one `accept` of a delivery that passed its gate is. */
  datatype Pc =
    | Reading(task: string, candidate: Acceptance)
    | Putting(task: string, candidate: Acceptance)
    | Accepted(task: string, acceptance: Acceptance, recorded: bool)
    | Conflicted(task: string)
    | Over

  datatype State = State(artifacts: map<string, Acceptance>, calls: map<nat, Pc>)

  datatype Event =
    | Begins(p: nat, task: string, candidate: Acceptance)
    | Reads(p: nat)
    | Puts(p: nat)
    | PutsUnheard(p: nat)
    | Dies(p: nat)

  function AfterReading(s: State, pc: Pc): Pc
    requires pc.Reading?
  {
    if pc.task !in s.artifacts then Putting(pc.task, pc.candidate)
    else if SameEvidence(s.artifacts[pc.task], pc.candidate) then Accepted(pc.task, s.artifacts[pc.task], false)
    else Conflicted(pc.task)
  }

  predicate Next(s: State, event: Event, t: State) {
    match event
    case Begins(p, task, candidate) => p !in s.calls && t == s.(calls := s.calls[p := Reading(task, candidate)])
    case Reads(p) => p in s.calls && s.calls[p].Reading? && t == s.(calls := s.calls[p := AfterReading(s, s.calls[p])])
    case Puts(p) =>
      && p in s.calls && s.calls[p].Putting?
      && var Putting(task, candidate) := s.calls[p];
      t == State(s.artifacts[task := candidate], s.calls[p := Accepted(task, candidate, true)])
    case PutsUnheard(p) =>
      && p in s.calls && s.calls[p].Putting?
      && t == State(s.artifacts[s.calls[p].task := s.calls[p].candidate], s.calls[p := Over])
    case Dies(p) => p in s.calls && !s.calls[p].Accepted? && t == s.(calls := s.calls[p := Over])
  }

  predicate IsRun(states: seq<State>, events: seq<Event>) {
    && |states| == |events| + 1
    && states[0] == State(map[], map[])
    && forall i :: 0 <= i < |events| ==> Next(states[i], events[i], states[i + 1])
  }

  // ---- When evidence is write-once ------------------------------------------

  /** A call between its read and its write saw nothing, and still nothing is there. */
  predicate NoRace(s: State) {
    forall p | p in s.calls && s.calls[p].Putting? ::
      && s.calls[p].task !in s.artifacts
      && forall q | q in s.calls && s.calls[q].Putting? && s.calls[q].task == s.calls[p].task :: q == p
  }

  /** No two calls on one task are between their read and their write together. */
  predicate Exclusive(s: State) {
    forall p, q | p in s.calls && q in s.calls && s.calls[p].Putting? && s.calls[q].Putting?
                  && s.calls[p].task == s.calls[q].task :: p == q
  }

  predicate AnswersHold(s: State) {
    forall p | p in s.calls && s.calls[p].Accepted? ::
      s.calls[p].task in s.artifacts && s.artifacts[s.calls[p].task] == s.calls[p].acceptance
  }

  predicate OnlyAdds(s: State, t: State) {
    forall task | task in s.artifacts :: task in t.artifacts && t.artifacts[task] == s.artifacts[task]
  }

  lemma StepOnlyAdds(s: State, event: Event, t: State)
    requires NoRace(s) && AnswersHold(s) && Next(s, event, t) && Exclusive(t)
    ensures NoRace(t) && AnswersHold(t) && OnlyAdds(s, t)
  {
  }

  lemma {:induction false} RunHolds(states: seq<State>, events: seq<Event>, i: nat)
    requires IsRun(states, events) && i < |states| && forall k :: 0 <= k < |states| ==> Exclusive(states[k])
    ensures NoRace(states[i]) && AnswersHold(states[i])
  {
    hide Next, Exclusive;
    if i > 0 {
      RunHolds(states, events, i - 1);
      StepOnlyAdds(states[i - 1], events[i - 1], states[i]);
    }
  }

  lemma {:induction false} RunOnlyAdds(states: seq<State>, events: seq<Event>, i: nat, j: nat)
    requires IsRun(states, events) && i <= j < |states| && forall k :: 0 <= k < |states| ==> Exclusive(states[k])
    ensures OnlyAdds(states[i], states[j])
  {
    hide Next, Exclusive;
    if i < j {
      RunOnlyAdds(states, events, i, j - 1);
      RunHolds(states, events, j - 1);
      StepOnlyAdds(states[j - 1], events[j - 1], states[j]);
    }
  }

  /** While calls on one task do not overlap between read and write, stored evidence never
      changes, and every call that accepts a task answers with that one evidence. */
  lemma EvidenceIsWriteOnce(states: seq<State>, events: seq<Event>, i: nat, j: nat, p: nat, q: nat)
    requires IsRun(states, events) && i <= j < |states| && forall k :: 0 <= k < |states| ==> Exclusive(states[k])
    requires p in states[i].calls && states[i].calls[p].Accepted?
             && q in states[j].calls && states[j].calls[q].Accepted?
    requires states[i].calls[p].task == states[j].calls[q].task
    ensures states[i].calls[p].acceptance == states[j].calls[q].acceptance
    ensures states[i].calls[p].task in states[j].artifacts
            && states[j].artifacts[states[i].calls[p].task] == states[i].calls[p].acceptance
  {
    hide Next, Exclusive, NoRace;
    RunHolds(states, events, i);
    RunHolds(states, events, j);
    RunOnlyAdds(states, events, i, j);
  }

  // ---- Exactly when evidence stays ------------------------------------------

  /** What can happen from `s` on. */
  predicate IsPath(s: State, states: seq<State>, events: seq<Event>) {
    && |states| == |events| + 1
    && states[0] == s
    && forall i :: 0 <= i < |events| ==> Next(states[i], events[i], states[i + 1])
  }

  /** A task's evidence is there and shows the same view. */
  predicate Shows<T(==)>(s: State, task: string, view: Acceptance -> T, shown: T) {
    task in s.artifacts && view(s.artifacts[task]) == shown
  }

  /** Whatever happens from `s` on, what is seen of the task's evidence stays as it is. */
  ghost predicate AlwaysShows<T>(s: State, task: string, view: Acceptance -> T, shown: T) {
    forall states, events | IsPath(s, states, events) :: Shows(states[|events|], task, view, shown)
  }

  /** A call on the task that may still write carries evidence that shows the same. */
  predicate WritersShow<T(==)>(s: State, task: string, view: Acceptance -> T, shown: T) {
    forall p | p in s.calls && s.calls[p].Putting? && s.calls[p].task == task :: view(s.calls[p].candidate) == shown
  }

  /** Once a task has evidence no call comes to write over it that was not about to. */
  lemma StepShows<T>(s: State, event: Event, t: State, task: string, view: Acceptance -> T, shown: T)
    requires Shows(s, task, view, shown) && WritersShow(s, task, view, shown) && Next(s, event, t)
    ensures Shows(t, task, view, shown) && WritersShow(t, task, view, shown)
  {
  }

  lemma {:induction false} PathShows<T>(s: State, states: seq<State>, events: seq<Event>, i: nat,
                                        task: string, view: Acceptance -> T, shown: T)
    requires IsPath(s, states, events) && i < |states|
    requires Shows(s, task, view, shown) && WritersShow(s, task, view, shown)
    ensures Shows(states[i], task, view, shown) && WritersShow(states[i], task, view, shown)
  {
    hide Next, Shows, WritersShow;
    if i > 0 {
      PathShows(s, states, events, i - 1, task, view, shown);
      StepShows(states[i - 1], events[i - 1], states[i], task, view, shown);
    }
  }

  /** In any state, what is seen of a task's stored evidence stays so whatever happens next
      exactly when every call that has read and not yet written the task carries evidence
      that shows the same. With the identity as the view this is the evidence itself. */
  lemma EvidenceStaysIff<T>(s: State, task: string, view: Acceptance -> T)
    requires task in s.artifacts
    ensures AlwaysShows(s, task, view, view(s.artifacts[task])) <==> WritersShow(s, task, view, view(s.artifacts[task]))
  {
    hide Next;
    var shown := view(s.artifacts[task]);
    if WritersShow(s, task, view, shown) {
      forall states, events | IsPath(s, states, events) ensures Shows(states[|events|], task, view, shown) {
        PathShows(s, states, events, |events|, task, view, shown);
      }
    }
    forall p | p in s.calls && s.calls[p].Putting? && s.calls[p].task == task && view(s.calls[p].candidate) != shown
      ensures !AlwaysShows(s, task, view, shown)
    {
      OverwriteShows(s, p);
      var states, events := [s, Overwritten(s, p)], [Puts(p)];
      assert IsPath(s, states, events) && !Shows(states[|events|], task, view, shown);
    }
  }

  function Overwritten(s: State, p: nat): State
    requires p in s.calls && s.calls[p].Putting?
  {
    var Putting(task, candidate) := s.calls[p];
    State(s.artifacts[task := candidate], s.calls[p := Accepted(task, candidate, true)])
  }

  lemma OverwriteShows(s: State, p: nat)
    requires p in s.calls && s.calls[p].Putting?
    ensures Next(s, Puts(p), Overwritten(s, p))
    ensures Overwritten(s, p).artifacts == s.artifacts[s.calls[p].task := s.calls[p].candidate]
  {
  }

  /** Overlapping calls do overwrite it: both find nothing, both write, and the first one's
      answer no longer describes what is stored. */
  lemma RacingAcceptsOverwrite(task: string, first: Acceptance, second: Acceptance)
    returns (states: seq<State>, events: seq<Event>)
    requires !SameEvidence(first, second)
    ensures IsRun(states, events) && |events| == 6 && events[5] == Puts(1)
    ensures states[5].artifacts == map[task := first]
    ensures states[6] == State(map[task := second],
                               map[0 := Accepted(task, first, true), 1 := Accepted(task, second, true)])
  {
    var s0 := State(map[], map[]);
    var s1 := State(map[], map[0 := Reading(task, first)]);
    var s2 := State(map[], map[0 := Reading(task, first), 1 := Reading(task, second)]);
    var s3 := State(map[], map[0 := Putting(task, first), 1 := Reading(task, second)]);
    var s4 := State(map[], map[0 := Putting(task, first), 1 := Putting(task, second)]);
    var s5 := State(map[task := first], map[0 := Accepted(task, first, true), 1 := Putting(task, second)]);
    var s6 := State(map[task := second], map[0 := Accepted(task, first, true), 1 := Accepted(task, second, true)]);
    states := [s0, s1, s2, s3, s4, s5, s6];
    events := [Begins(0, task, first), Begins(1, task, second), Reads(0), Reads(1), Puts(0), Puts(1)];
    assert Next(s0, events[0], s1) && Next(s1, events[1], s2) && Next(s2, events[2], s3);
    assert Next(s3, events[3], s4) && Next(s4, events[4], s5) && Next(s5, events[5], s6);
  }

  // ---- A call on its own ----------------------------------------------------

  /** Left alone, a call stores its evidence on a task that has none; on one that has, it is
      answered with what is stored when record, README, run and digests are the same, whatever
      the commit, and else refused; and then nothing stored changes. */
  lemma UndisturbedAccept(s: State, p: nat, task: string, candidate: Acceptance)
    returns (states: seq<State>, events: seq<Event>)
    requires p !in s.calls
    ensures IsPath(s, states, events)
    ensures forall event | event in events :: event.p == p && !event.Dies? && !event.PutsUnheard?
    ensures var t := states[|events|];
            && p in t.calls
            && (task !in s.artifacts ==>
                  t.calls[p] == Accepted(task, candidate, true) && t.artifacts == s.artifacts[task := candidate])
            && (task in s.artifacts ==>
                  && t.artifacts == s.artifacts
                  && var stored := s.artifacts[task];
                     if stored.(commit := "") == candidate.(commit := "")
                     then t.calls[p] == Accepted(task, stored, false)
                     else t.calls[p] == Conflicted(task))
  {
    var s1 := s.(calls := s.calls[p := Reading(task, candidate)]);
    var s2 := s1.(calls := s1.calls[p := AfterReading(s1, s1.calls[p])]);
    states, events := [s, s1, s2], [Begins(p, task, candidate), Reads(p)];
    assert Next(s, events[0], s1) && Next(s1, events[1], s2);
    if task !in s.artifacts {
      var s3 := State(s.artifacts[task := candidate], s2.calls[p := Accepted(task, candidate, true)]);
      states, events := states + [s3], events + [Puts(p)];
      assert Next(s2, events[2], s3);
    }
  }
}
