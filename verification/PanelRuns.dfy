/** Panels and their cache over time: any number of refreshes reading and caching while
    results are being accepted. */
module PanelRuns {
  import opened AcceptanceCache
  import opened Panels
  import Evidence

  /** `seen` are the results some live read has accepted so far. */
  datatype State = State(evidence: Evidence.State, seen: set<Item>, entries: map<string, Stored>)

  /** A step of an `accept`, a panel's read of one result, or a panel caching one it read. */
  datatype Event =
    | Accepting(step: Evidence.Event)
    | Asked(item: Item, reply: Reply)
    | Cached(item: Item)

  function Artifacts(evidence: Evidence.State): map<string, Artifact> {
    map task | task in evidence.artifacts :: Readable(evidence.artifacts[task])
  }

  /** A read is answered truly or not at all. */
  predicate Next(s: State, event: Event, t: State) {
    match event
    case Accepting(step) => Evidence.Next(s.evidence, step, t.evidence) && t == s.(evidence := t.evidence)
    case Asked(item, reply) =>
      && (reply.Answered() ==> reply == Live(Artifacts(s.evidence), item.task))
      && t == s.(seen := if Accepts(reply, item) then s.seen + {item} else s.seen)
    case Cached(item) =>
      && item in s.seen && CacheName(item).Some? && CacheName(item).value !in s.entries
      && t == s.(entries := s.entries[CacheName(item).value := Entry(item)])
  }

  predicate IsPath(s: State, states: seq<State>, events: seq<Event>) {
    && |states| == |events| + 1
    && states[0] == s
    && forall i :: 0 <= i < |events| ==> Next(states[i], events[i], states[i + 1])
  }

  const START_STATE := State(Evidence.State(map[], map[]), {}, map[])

  predicate IsRun(states: seq<State>, events: seq<Event>) {
    IsPath(START_STATE, states, events)
  }

  // ---- A refresh is such steps ----------------------------------------------

  /** The cache a whole refresh leaves is one that reads and cachings of its results reach. */
  lemma RefreshIsAPath(s: State, items: seq<Item>, replies: seq<Reply>, after: map<string, Stored>)
    returns (states: seq<State>, events: seq<Event>)
    requires |items| == |replies| && Truthful(items, replies, Artifacts(s.evidence))
    requires Refreshed(s.entries, items, replies, after)
    ensures IsPath(s, states, events)
    ensures states[|events|].entries == after && states[|events|].evidence == s.evidence
  {
    hide Accepts, CacheName;
    var caches :| Fills(caches, items, replies) && caches[0] == s.entries && caches[|items|] == after;
    states, events := [s], [];
    for i := 0 to |items|
      invariant IsPath(s, states, events)
      invariant states[|events|].entries == caches[i] && states[|events|].evidence == s.evidence
    {
      var now := states[|events|];
      assert MayAdd(caches[i], items[i], replies[i], caches[i + 1]);
      var read := now.(seen := if Accepts(replies[i], items[i]) then now.seen + {items[i]} else now.seen);
      states, events := Longer(s, states, events, Asked(items[i], replies[i]), read);
      if caches[i + 1] != caches[i] {
        states, events := Longer(s, states, events, Cached(items[i]), read.(entries := caches[i + 1]));
      }
    }
  }

  lemma Longer(s: State, states: seq<State>, events: seq<Event>, event: Event, t: State)
    returns (more: seq<State>, longer: seq<Event>)
    requires IsPath(s, states, events) && Next(states[|events|], event, t)
    ensures IsPath(s, more, longer) && more[|longer|] == t
  {
    hide Next;
    more, longer := states + [t], events + [event];
  }

  // ---- While evidence is write-once -----------------------------------------

  predicate AllAccepted(results: set<Item>, artifacts: map<string, Artifact>) {
    forall item | item in results :: Accepts(Live(artifacts, item.task), item)
  }

  lemma AcceptedStay(results: set<Item>, artifacts: map<string, Artifact>, later: map<string, Artifact>)
    requires AllAccepted(results, artifacts)
    requires forall task | task in artifacts :: task in later && later[task] == artifacts[task]
    ensures AllAccepted(results, later)
  {
  }

  predicate Good(s: State) {
    && Evidence.NoRace(s.evidence) && Evidence.AnswersHold(s.evidence)
    && AllAccepted(s.seen, Artifacts(s.evidence))
    && Backed(s.entries, Artifacts(s.evidence))
  }

  predicate AlwaysExclusive(states: seq<State>) {
    forall i :: 0 <= i < |states| ==> Evidence.Exclusive(states[i].evidence)
  }

  lemma NextKeepsGood(s: State, event: Event, t: State)
    requires Good(s) && Next(s, event, t) && Evidence.Exclusive(t.evidence)
    ensures Good(t)
  {
    hide Accepts, CacheName, Evidence.Exclusive, Evidence.NoRace, Evidence.Next;
    match event
    case Accepting(step) =>
      Evidence.StepOnlyAdds(s.evidence, step, t.evidence);
      BackedStays(s.entries, Artifacts(s.evidence), Artifacts(t.evidence));
      AcceptedStay(s.seen, Artifacts(s.evidence), Artifacts(t.evidence));
    case Asked(item, reply) => AcceptedIsAnswered(item, reply);
    case Cached(_) =>
  }

  lemma {:induction false} RunIsGood(states: seq<State>, events: seq<Event>, i: nat)
    requires IsRun(states, events) && i < |states| && AlwaysExclusive(states)
    ensures Good(states[i])
  {
    hide Next, Evidence.Exclusive;
    if i > 0 {
      RunIsGood(states, events, i - 1);
      hide Good;
      NextKeepsGood(states[i - 1], events[i - 1], states[i]);
    }
  }

  /** The cached results, each looked up when the panel came to it. */
  function HitsAt(states: seq<State>, moments: seq<nat>, items: seq<Item>, usable: bool): set<Item>
    requires |moments| == |items| && forall k :: 0 <= k < |moments| ==> moments[k] < |states|
  {
    set k | 0 <= k < |items| && usable && Hit(states[moments[k]].entries, items[k]) :: items[k]
  }

  /** From an empty cache, however refreshes and calls of `accept` interleave, as long as
      calls on one task do not overlap between read and write: a refresh whose reads are
      all answered lists the rows it would list without the cache. Its results may be
      looked up and read at different moments. */
  lemma PanelsAgree(states: seq<State>, events: seq<Event>, moments: seq<nat>,
                    items: seq<Item>, replies: seq<Reply>, usable: bool)
    requires IsRun(states, events) && AlwaysExclusive(states)
    requires |moments| == |items| == |replies| && forall k :: 0 <= k < |moments| ==> moments[k] < |states|
    requires DistinctResults(items) && AllAnswered(replies)
    requires forall k :: 0 <= k < |items| ==> replies[k] == Live(Artifacts(states[moments[k]].evidence), items[k].task)
    ensures Rows(items, replies, HitsAt(states, moments, items, usable), |items|) == Rows(items, replies, {}, |items|)
  {
    hide IsPath, AlwaysExclusive, Accepts, Rows, Hit, Live, Artifacts;
    var hits := HitsAt(states, moments, items, usable);
    forall i | 0 <= i < |items| && items[i] in hits ensures Accepts(replies[i], items[i]) {
      var k :| 0 <= k < |items| && Hit(states[moments[k]].entries, items[k]) && items[k] == items[i];
      assert k == i;
      RunIsGood(states, events, moments[i]);
      HitIsAccepted(items[i], states[moments[i]].entries, Artifacts(states[moments[i]].evidence));
    }
    CacheAgreesIff(items, replies, hits);
  }

  // ---- Exactly when a cached result stays accepted --------------------------

  /** Whatever calls of `accept` do from `s` on, the result stays accepted. */
  ghost predicate AcceptedForGood(s: Evidence.State, item: Item) {
    forall states, events | Evidence.IsPath(s, states, events) ::
      Accepts(Live(Artifacts(states[|events|]), item.task), item)
  }

  /** The cache relies on stored evidence never changing. What it says of an accepted result
      stays right whatever happens exactly when each call that has read and not yet written
      the result's task would write evidence that accepts the result too. */
  lemma AcceptedForGoodIff(s: Evidence.State, item: Item)
    requires Accepts(Live(Artifacts(s), item.task), item)
    ensures AcceptedForGood(s, item) <==>
            forall p | p in s.calls && s.calls[p].Putting? && s.calls[p].task == item.task ::
              Evidence.Verifies(s.calls[p].candidate, item.research, item.blob)
  {
    hide Evidence.Next, Evidence.Verifies;
    var view := (acceptance: Evidence.Acceptance) => Evidence.Verifies(acceptance, item.research, item.blob);
    Evidence.EvidenceStaysIff(s, item.task, view);
    forall states, events | Evidence.IsPath(s, states, events)
      ensures Accepts(Live(Artifacts(states[|events|]), item.task), item)
              <==> Evidence.Shows(states[|events|], item.task, view, true)
    {
    }
    assert AcceptedForGood(s, item) <==> Evidence.AlwaysShows(s, item.task, view, true);
  }

  // ---- After a race ---------------------------------------------------------

  /** When two calls of `accept` overlap, a panel can cache what the first one stored; the
      second then overwrites it, and from then on the cache hides a result whose stored
      evidence no longer accepts it. */
  lemma RacedCacheHides(item: Item, first: Evidence.Acceptance, second: Evidence.Acceptance)
    returns (states: seq<State>, events: seq<Event>)
    requires CacheName(item).Some?
    requires Evidence.Verifies(first, item.research, item.blob) && !Evidence.Verifies(second, item.research, item.blob)
    ensures IsRun(states, events)
    ensures var last := states[|events|];
            var reply := Live(Artifacts(last.evidence), item.task);
            && Artifacts(last.evidence) == map[item.task := Readable(second)]
            && Rows([item], [reply], HitsOf(true, last.entries, [item]), 1) == []
            && |Rows([item], [reply], {}, 1)| == 1 && Rows([item], [reply], {}, 1)[0].standing == Changed
  {
    hide CacheName;
    var before, steps := Evidence.RacingAcceptsOverwrite(item.task, first, second);
    states, events := [START_STATE], [];
    for i := 0 to 5
      invariant IsRun(states, events) && states[|events|] == State(before[i], {}, map[])
    {
      states, events := Longer(START_STATE, states, events, Accepting(steps[i]), State(before[i + 1], {}, map[]));
    }
    var entries := map[CacheName(item).value := Entry(item)];
    states, events := Longer(START_STATE, states, events, Asked(item, Found(Readable(first))),
                             State(before[5], {item}, map[]));
    states, events := Longer(START_STATE, states, events, Cached(item), State(before[5], {item}, entries));
    states, events := Longer(START_STATE, states, events, Accepting(steps[5]), State(before[6], {item}, entries));
    OneRow(item, second, entries);
  }

  lemma OneRow(item: Item, second: Evidence.Acceptance, entries: map<string, Stored>)
    requires Hit(entries, item) && !Evidence.Verifies(second, item.research, item.blob)
    ensures var reply := Found(Readable(second));
            && Rows([item], [reply], HitsOf(true, entries, [item]), 1) == []
            && |Rows([item], [reply], {}, 1)| == 1 && Rows([item], [reply], {}, 1)[0].standing == Changed
  {
    hide CacheName, Hit;
    assert item in HitsOf(true, entries, [item]);
  }
}
