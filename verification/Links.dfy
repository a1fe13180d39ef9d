/** Linking a research record to a task of the host (`operations.rs`, `plugin.rs`): the
    intent is recorded under the log's lock, the task is created outside it, and the two
    are joined by a tag. Creating a task is not idempotent. */
module Links {
  import opened Basics
  import Text

  type Key = string

  /** A recorded intent; `task` is confirmed later. */
  datatype Link = Link(requestKey: Key, tag: string, research: string, task: Option<string>, scope: seq<string>)

  datatype Preparation = Preparation(link: Link, isNew: bool, scope: seq<string>)

  const MAX_KEY: nat := 256

  function Tag(key: Key): string {
    "research-request:" + key
  }

  lemma TagsAreDistinct(a: Key, b: Key)
    requires Tag(a) == Tag(b)
    ensures a == b
  {
    assert Tag(a)[17..] == a && Tag(b)[17..] == b;
  }

  /** What a caller asks. `scope` is the task scope derived for the request from the
      committed corpus, and `whole` the scope of the whole research directory. */
  datatype Call = Call(key: Key, research: string, scope: Result<seq<string>>, whole: Result<seq<string>>)

  /** The scope a recorded link is bound to; links older than scopes used the whole directory. */
  function RecordedScope(link: Link, call: Call): Result<seq<string>> {
    if link.scope == [] then call.whole else Success(link.scope)
  }

  /** What `link_intent` answers, and the log after it. */
  function Intend(log: map<Key, Link>, call: Call): (Result<Preparation>, map<Key, Link>) {
    if !(1 <= Text.Utf8Length(call.key) <= MAX_KEY) then (Failure(InvalidInput), log)
    else if call.scope.Failure? then (Failure(call.scope.error), log)
    else if call.key in log then
      var link := log[call.key];
      var recorded := RecordedScope(link, call);
      if link.research != call.research then (Failure(Conflict), log)
      else if recorded.Failure? then (Failure(recorded.error), log)
      else if recorded.value != call.scope.value then (Failure(Conflict), log)
      else (Success(Preparation(link, false, call.scope.value)), log)
    else
      var link := Link(call.key, Tag(call.key), call.research, None, call.scope.value);
      (Success(Preparation(link, true, call.scope.value)), log[call.key := link])
  }

  /** What `link_confirm` answers, and the log after it. */
  function Confirmed(log: map<Key, Link>, key: Key, task: string): (Result<Link>, map<Key, Link>) {
    if key !in log then (Failure(Invalid), log)
    else if log[key].task.Some? && log[key].task.value != task then (Failure(Conflict), log)
    else
      var link := log[key].(task := Some(task));
      (Success(link), log[key := link])
  }

  /** An accepted intent is recalled, not made again, by the same call at any later time,
      whether or not its task was confirmed since. A first call can only fail to be
      recalled when it recorded an empty scope, which reads as the whole directory's. */
  lemma IntentIsRecalled(log: map<Key, Link>, call: Call, later: map<Key, Link>)
    requires Intend(log, call).0.Success?
    requires call.key in later && later[call.key].(task := None) == Intend(log, call).1[call.key].(task := None)
    ensures Intend(later, call).1 == later
    ensures Intend(later, call).0 == Success(Preparation(later[call.key], false, call.scope.value)) <==>
            call.key in log || call.scope.value != [] || call.whole == Success([])
    ensures Intend(later, call).0.Success? <==> call.key in log || call.scope.value != [] || call.whole == Success([])
  {
    hide Tag, Text.Utf8Length;
    var stored := Intend(log, call).1[call.key];
    assert later[call.key].scope == stored.(task := None).scope
           && later[call.key].research == stored.(task := None).research;
  }

  /** A confirmed task is confirmed again by itself alone, with nothing changed. */
  lemma ConfirmationStays(log: map<Key, Link>, key: Key, task: string, other: string)
    requires Confirmed(log, key, task).0.Success?
    ensures var later := Confirmed(log, key, task).1;
            && Confirmed(later, key, other).1 == later
            && (Confirmed(later, key, other).0.Success? <==> other == task)
  {
    var later := Confirmed(log, key, task).1;
    assert later[key := later[key].(task := Some(task))] == later;
  }

  class RequestLog {
    var links: map<Key, Link>

    constructor ()
      ensures links == map[]
    {
      links := map[];
    }

    /** `link_intent`, under the log's lock: a key's intent is recorded once, and later calls
        for the same record and scope are given it back. */
    method LinkIntent(call: Call) returns (preparation: Result<Preparation>)
      modifies this
      ensures preparation.Success? <==>
              && 1 <= Text.Utf8Length(call.key) <= 256 && call.scope.Success?
              && (call.key in old(links) ==>
                    var link := old(links)[call.key];
                    && link.research == call.research
                    && (if link.scope == [] then call.whole else Success(link.scope)) == call.scope)
      ensures preparation.Failure? || call.key in old(links) ==> links == old(links)
      ensures preparation.Success? ==>
                && (preparation.value.isNew <==> call.key !in old(links))
                && preparation.value.scope == call.scope.value
                && call.key in links && links[call.key] == preparation.value.link
      ensures preparation.Success? && call.key !in old(links) ==>
                links == old(links)[call.key := Link(call.key, "research-request:" + call.key, call.research, None,
                                                     call.scope.value)]
      ensures (preparation, links) == Intend(old(links), call)
    {
      if !(1 <= Text.Utf8Length(call.key) <= MAX_KEY) {
        return Failure(InvalidInput);
      }
      if call.scope.Failure? {
        return Failure(call.scope.error);
      }
      var scope := call.scope.value;
      if call.key in links {
        var existing := links[call.key];
        if existing.research != call.research {
          return Failure(Conflict);
        }
        var recorded := existing.scope;
        if recorded == [] {
          if call.whole.Failure? {
            return Failure(call.whole.error);
          }
          recorded := call.whole.value;
        }
        if recorded != scope {
          return Failure(Conflict);
        }
        return Success(Preparation(existing, false, scope));
      }
      var link := Link(call.key, Tag(call.key), call.research, None, scope);
      links := links[call.key := link];
      return Success(Preparation(link, true, scope));
    }

    /** `link_confirm`, under the log's lock: a task is set once and never replaced. */
    method LinkConfirm(key: Key, task: string) returns (confirmed: Result<Link>)
      modifies this
      ensures confirmed.Success? <==>
              key in old(links) && (old(links)[key].task.Some? ==> old(links)[key].task.value == task)
      ensures confirmed.Failure? || (key in old(links) && old(links)[key].task.Some?) ==> links == old(links)
      ensures links.Keys == old(links).Keys && links - {key} == old(links) - {key}
      ensures confirmed.Success? ==>
                && links[key] == confirmed.value && links[key].task == Some(task)
                && links[key].(task := None) == old(links)[key].(task := None)
      ensures (confirmed, links) == Confirmed(old(links), key, task)
    {
      if key !in links {
        return Failure(Invalid);
      }
      var link := links[key];
      if link.task.Some? {
        if link.task.value != task {
          return Failure(Conflict);
        }
        assert links[key := link] == links && link.(task := Some(task)) == link;
        return Success(link);
      }
      link := link.(task := Some(task));
      links := links[key := link];
      return Success(link);
    }
  }

  // ---- Interleaved calls ----------------------------------------------------

  datatype Answer =
    | Linked(research: string, task: string, created: bool)
    | Declined(error: Error)
    | Unconfirmed(error: Error)
    | Lost        // recorded before, but no task is found
    | Several     // more than one task is found

  /** Where one `link` call is. A call that crashed or failed at the host is Over. */
  datatype Pc =
    | Asked(call: Call)
    | Listing(key: Key, research: string, isNew: bool)
    | Creating(key: Key, research: string)
    | Confirming(key: Key, research: string, task: string, created: bool)
    | Answered(key: Key, answer: Answer)
    | Over

  /** `tasks` are the tags of all tasks ever created; the host no longer lists those in `gone`. */
  datatype State = State(log: map<Key, Link>, tasks: map<string, string>, gone: set<string>, calls: map<nat, Pc>)

  datatype Event =
    | Begins(p: nat, call: Call)
    | Intends(p: nat)
    | Lists(p: nat)
    | Creates(p: nat, task: string)
    | CreatesUnheard(p: nat, task: string)
    | Confirms(p: nat)
    | ConfirmsUnheard(p: nat)
    | Dies(p: nat)
    | Vanishes(task: string)

  function Listed(s: State, key: Key): set<string> {
    set t | t in s.tasks && s.tasks[t] == Tag(key) && t !in s.gone
  }

  function AfterListing(s: State, pc: Pc): Pc
    requires pc.Listing?
  {
    var found := Listed(s, pc.key);
    if |found| == 1 then Confirming(pc.key, pc.research, Only(found), false)
    else if |found| > 1 then Answered(pc.key, Several)
    else if pc.isNew then Creating(pc.key, pc.research)
    else Answered(pc.key, Lost)
  }

  function Only(found: set<string>): (task: string)
    requires |found| == 1
    ensures found == {task}
  {
    OnlyOne(found);
    var task :| task in found;
    task
  }

  lemma OnlyOne(found: set<string>)
    requires |found| == 1
    ensures exists task :: found == {task}
    ensures forall a, b | a in found && b in found :: a == b
  {
    var task :| task in found;
    assert |found - {task}| == 0;
    assert found == {task};
  }

  function AfterIntent(s: State, call: Call): (Pc, map<Key, Link>) {
    var (prepared, log) := Intend(s.log, call);
    match prepared
    case Success(preparation) => (Listing(call.key, call.research, preparation.isNew), log)
    case Failure(error) => (Answered(call.key, Declined(error)), log)
  }

  function AfterConfirm(s: State, pc: Pc): (Pc, map<Key, Link>)
    requires pc.Confirming?
  {
    var (confirmed, log) := Confirmed(s.log, pc.key, pc.task);
    match confirmed
    case Success(_) => (Answered(pc.key, Linked(pc.research, pc.task, pc.created)), log)
    case Failure(error) => (Answered(pc.key, Unconfirmed(error)), log)
  }

  /** One step of one call, a death of one, or the host dropping a task. Only `link` calls
      create tasks with a request tag, and the host never reuses a task id. */
  predicate Next(s: State, event: Event, t: State) {
    match event
    case Begins(p, call) => p !in s.calls && t == s.(calls := s.calls[p := Asked(call)])
    case Intends(p) =>
      && p in s.calls && s.calls[p].Asked?
      && var (pc, log) := AfterIntent(s, s.calls[p].call);
      t == s.(log := log, calls := s.calls[p := pc])
    case Lists(p) =>
      p in s.calls && s.calls[p].Listing? && t == s.(calls := s.calls[p := AfterListing(s, s.calls[p])])
    case Creates(p, task) =>
      && p in s.calls && s.calls[p].Creating? && task !in s.tasks
      && t == s.(tasks := s.tasks[task := Tag(s.calls[p].key)],
              calls := s.calls[p := Confirming(s.calls[p].key, s.calls[p].research, task, true)])
    case CreatesUnheard(p, task) =>
      && p in s.calls && s.calls[p].Creating? && task !in s.tasks
      && t == s.(tasks := s.tasks[task := Tag(s.calls[p].key)], calls := s.calls[p := Over])
    case Confirms(p) =>
      && p in s.calls && s.calls[p].Confirming?
      && var (pc, log) := AfterConfirm(s, s.calls[p]);
      t == s.(log := log, calls := s.calls[p := pc])
    case ConfirmsUnheard(p) =>
      && p in s.calls && s.calls[p].Confirming?
      && t == s.(log := AfterConfirm(s, s.calls[p]).1, calls := s.calls[p := Over])
    case Dies(p) => p in s.calls && !s.calls[p].Answered? && t == s.(calls := s.calls[p := Over])
    case Vanishes(task) => task in s.tasks && t == s.(gone := s.gone + {task})
  }

  // ---- The invariant --------------------------------------------------------

  /** This call may still create its key's task. */
  predicate MayCreate(pc: Pc, key: Key) {
    (pc.Listing? && pc.isNew && pc.key == key) || (pc.Creating? && pc.key == key)
  }

  predicate Tagged(s: State, task: string, key: Key) {
    task in s.tasks && s.tasks[task] == Tag(key)
  }

  predicate CallOk(s: State, pc: Pc) {
    match pc
    case Listing(key, _, _) => key in s.log
    case Creating(key, _) => key in s.log
    case Confirming(key, _, task, _) => key in s.log && Tagged(s, task, key)
    case Answered(key, Linked(_, task, _)) => key in s.log && s.log[key].task == Some(task)
    case Answered(_, answer) => !answer.Several? && !answer.Unconfirmed?
    case _ => true
  }

  /** Of one key's tasks there is at most one; while a call may still create it there is
      none, and no other call may. */
  ghost predicate OneChance(s: State, key: Key) {
    && (forall a, b | Tagged(s, a, key) && Tagged(s, b, key) :: a == b)
    && (forall p, q | p in s.calls && q in s.calls && MayCreate(s.calls[p], key)
                        && MayCreate(s.calls[q], key) :: p == q)
    && (forall p | p in s.calls && MayCreate(s.calls[p], key) :: forall a :: !Tagged(s, a, key))
    && (key !in s.log ==> (forall a :: !Tagged(s, a, key)) && forall p | p in s.calls :: !MayCreate(s.calls[p], key))
  }

  predicate LinkOk(s: State, key: Key)
    requires key in s.log
  {
    var link := s.log[key];
    link.requestKey == key && link.tag == Tag(key) && (link.task.Some? ==> Tagged(s, link.task.value, key))
  }

  ghost predicate Inv(s: State) {
    && (forall key :: OneChance(s, key))
    && (forall key | key in s.log :: LinkOk(s, key))
    && (forall p | p in s.calls :: CallOk(s, s.calls[p]))
  }

  // ---- It is inductive ------------------------------------------------------

  /** What calls and links rely on is never taken back. */
  predicate Kept(s: State, t: State) {
    && (forall task | task in s.tasks :: task in t.tasks && t.tasks[task] == s.tasks[task])
    && (forall key | key in s.log :: key in t.log && (s.log[key].task.Some? ==> t.log[key].task == s.log[key].task))
  }

  lemma CallStaysOk(s: State, t: State, pc: Pc)
    requires Kept(s, t) && CallOk(s, pc)
    ensures CallOk(t, pc)
  {
  }

  /** A step that creates no task and gives no call a chance it did not have. */
  lemma ChanceStays(s: State, t: State, p: nat, key: Key)
    requires OneChance(s, key) && Kept(s, t) && t.tasks == s.tasks
    requires forall q | q in t.calls && q != p :: q in s.calls && t.calls[q] == s.calls[q]
    requires p in t.calls && MayCreate(t.calls[p], key) ==> p in s.calls && MayCreate(s.calls[p], key)
    ensures OneChance(t, key)
  {
    forall q, r | q in t.calls && r in t.calls && MayCreate(t.calls[q], key) && MayCreate(t.calls[r], key)
      ensures q == r {
      assert q in s.calls && r in s.calls && MayCreate(s.calls[q], key) && MayCreate(s.calls[r], key);
    }
    forall q | q in t.calls && MayCreate(t.calls[q], key) ensures forall a :: !Tagged(t, a, key) {
      assert q in s.calls && MayCreate(s.calls[q], key);
      assert forall a :: Tagged(t, a, key) ==> Tagged(s, a, key);
    }
    assert forall a :: Tagged(t, a, key) ==> Tagged(s, a, key);
  }

  lemma IntentGives(s: State, call: Call)
    ensures var (pc, log) := AfterIntent(s, call);
            && (pc == Listing(call.key, call.research, call.key !in s.log)
                || (pc.Answered? && pc.key == call.key && pc.answer.Declined?))
            && (pc.Listing? <==> Intend(s.log, call).0.Success?)
            && (if pc.Listing? && call.key !in s.log
                then call.key in log && log == s.log[call.key := log[call.key]]
                     && log[call.key].requestKey == call.key && log[call.key].tag == Tag(call.key)
                     && log[call.key].task.None?
                else log == s.log)
  {
    hide RecordedScope, Tag, Text.Utf8Length;
  }

  lemma IntentKeepsInv(s: State, p: nat)
    requires Inv(s) && p in s.calls && s.calls[p].Asked?
    ensures var (pc, log) := AfterIntent(s, s.calls[p].call);
            Inv(s.(log := log, calls := s.calls[p := pc])) && Kept(s, s.(log := log, calls := s.calls[p := pc]))
  {
    hide Tag, AfterIntent;
    var call := s.calls[p].call;
    var (pc, log) := AfterIntent(s, call);
    var t := s.(log := log, calls := s.calls[p := pc]);
    IntentGives(s, call);
    assert CallOk(s, s.calls[p]);
    forall key ensures OneChance(t, key) {
      assert OneChance(s, key);
      if key == call.key && key !in s.log {
        assert forall a :: Tagged(t, a, key) ==> Tagged(s, a, key);
        forall q | q in t.calls && q != p ensures !MayCreate(t.calls[q], key) {
          assert !MayCreate(s.calls[q], key);
        }
      } else {
        ChanceStays(s, t, p, key);
      }
    }
    forall key | key in t.log ensures LinkOk(t, key) {
      if key in s.log { assert LinkOk(s, key); }
    }
    forall q | q in t.calls ensures CallOk(t, t.calls[q]) {
      if q != p { CallStaysOk(s, t, s.calls[q]); }
    }
  }

  lemma ListingKeepsInv(s: State, p: nat)
    requires Inv(s) && p in s.calls && s.calls[p].Listing?
    ensures Inv(s.(calls := s.calls[p := AfterListing(s, s.calls[p])]))
  {
    hide Tag;
    var pc := s.calls[p];
    var t := s.(calls := s.calls[p := AfterListing(s, pc)]);
    assert CallOk(s, pc) && OneChance(s, pc.key);
    var found := Listed(s, pc.key);
    assert forall a | a in found :: Tagged(s, a, pc.key);
    if |found| > 1 {
      MoreThanOne(found);
      assert false;
    }
    if |found| == 1 { assert Only(found) in found; }
    forall key ensures OneChance(t, key) {
      assert OneChance(s, key);
      ChanceStays(s, t, p, key);
    }
    SameLogAndTasks(s, t, p);
  }

  lemma MoreThanOne(found: set<string>)
    requires |found| > 1
    ensures exists a, b :: a in found && b in found && a != b
  {
    var a :| a in found;
    assert |found - {a}| > 0;
    var b :| b in found - {a};
  }

  lemma SameLogAndTasks(s: State, t: State, p: nat)
    requires Inv(s) && t.log == s.log && t.tasks == s.tasks
    requires forall q | q in t.calls && q != p :: q in s.calls && t.calls[q] == s.calls[q]
    ensures forall key | key in t.log :: LinkOk(t, key)
    ensures forall q | q in t.calls && q != p :: CallOk(t, t.calls[q])
  {
    hide OneChance, Tag;
    forall q | q in t.calls && q != p ensures CallOk(t, t.calls[q]) {
      CallStaysOk(s, t, s.calls[q]);
    }
    forall key | key in t.log ensures LinkOk(t, key) {
      assert LinkOk(s, key);
    }
  }

  lemma CreationKeepsInv(s: State, p: nat, task: string, pc: Pc)
    requires Inv(s) && p in s.calls && s.calls[p].Creating? && task !in s.tasks
    requires pc == Confirming(s.calls[p].key, s.calls[p].research, task, true) || pc == Over
    ensures var t := s.(tasks := s.tasks[task := Tag(s.calls[p].key)], calls := s.calls[p := pc]);
            Inv(t) && Kept(s, t)
  {
    hide Tag;
    var mine := s.calls[p].key;
    var t := s.(tasks := s.tasks[task := Tag(mine)], calls := s.calls[p := pc]);
    assert CallOk(s, s.calls[p]) && MayCreate(s.calls[p], mine);
    forall key ensures OneChance(t, key) {
      assert OneChance(s, key);
      if Tag(key) == Tag(mine) {
        TagsAreDistinct(key, mine);
        assert forall a :: Tagged(t, a, key) ==> a == task || Tagged(s, a, key);
        forall q | q in t.calls ensures !MayCreate(t.calls[q], key) {
          assert q != p ==> !MayCreate(s.calls[q], key);
        }
      } else {
        assert forall a :: Tagged(t, a, key) <==> Tagged(s, a, key);
        forall q, r | q in t.calls && r in t.calls && MayCreate(t.calls[q], key) && MayCreate(t.calls[r], key)
          ensures q == r {
          assert MayCreate(s.calls[q], key) && MayCreate(s.calls[r], key);
        }
      }
    }
    forall key | key in t.log ensures LinkOk(t, key) { assert LinkOk(s, key); }
    forall q | q in t.calls ensures CallOk(t, t.calls[q]) {
      if q != p { CallStaysOk(s, t, s.calls[q]); }
    }
  }

  lemma ConfirmKeepsInv(s: State, p: nat, pc: Pc)
    requires Inv(s) && p in s.calls && s.calls[p].Confirming?
    requires pc == AfterConfirm(s, s.calls[p]).0 || pc == Over
    ensures var log := AfterConfirm(s, s.calls[p]).1;
            Inv(s.(log := log, calls := s.calls[p := pc])) && Kept(s, s.(log := log, calls := s.calls[p := pc]))
  {
    hide Tag;
    var key := s.calls[p].key;
    assert CallOk(s, s.calls[p]) && LinkOk(s, key) && OneChance(s, key);
    var log := AfterConfirm(s, s.calls[p]).1;
    assert log == s.log[key := s.log[key].(task := Some(s.calls[p].task))];
    var t := s.(log := log, calls := s.calls[p := pc]);
    forall other ensures OneChance(t, other) {
      assert OneChance(s, other);
      ChanceStays(s, t, p, other);
    }
    forall other | other in t.log ensures LinkOk(t, other) { assert LinkOk(s, other); }
    forall q | q in t.calls ensures CallOk(t, t.calls[q]) {
      if q != p { CallStaysOk(s, t, s.calls[q]); }
    }
  }

  /** A call begins, dies, or the host drops a task. */
  lemma QuietKeepsInv(s: State, t: State, p: nat)
    requires Inv(s) && t.log == s.log && t.tasks == s.tasks
    requires forall q | q in t.calls && q != p :: q in s.calls && t.calls[q] == s.calls[q]
    requires p in t.calls ==> t.calls[p].Asked? || t.calls[p].Over? || (p in s.calls && t.calls[p] == s.calls[p])
    ensures Inv(t)
  {
    hide Tag;
    forall key ensures OneChance(t, key) {
      assert OneChance(s, key);
      ChanceStays(s, t, p, key);
    }
    SameLogAndTasks(s, t, p);
    if p in t.calls && p in s.calls { CallStaysOk(s, t, s.calls[p]); }
  }

  lemma NextKeepsInv(s: State, event: Event, t: State)
    requires Inv(s) && Next(s, event, t)
    ensures Inv(t) && Kept(s, t)
  {
    hide Inv, Tag, AfterIntent, AfterListing, AfterConfirm;
    match event
    case Begins(p, _) => QuietKeepsInv(s, t, p);
    case Intends(p) => IntentKeepsInv(s, p);
    case Lists(p) => ListingKeepsInv(s, p);
    case Creates(p, task) => CreationKeepsInv(s, p, task, Confirming(s.calls[p].key, s.calls[p].research, task, true));
    case CreatesUnheard(p, task) => CreationKeepsInv(s, p, task, Over);
    case Confirms(p) => ConfirmKeepsInv(s, p, AfterConfirm(s, s.calls[p]).0);
    case ConfirmsUnheard(p) => ConfirmKeepsInv(s, p, Over);
    case Dies(p) => QuietKeepsInv(s, t, p);
    case Vanishes(_) => QuietKeepsInv(s, t, 0);
  }

  // ---- Runs -----------------------------------------------------------------

  predicate IsRun(states: seq<State>, events: seq<Event>) {
    && |states| == |events| + 1
    && states[0] == State(map[], map[], {}, map[])
    && forall i :: 0 <= i < |events| ==> Next(states[i], events[i], states[i + 1])
  }

  lemma {:induction false} RunKeepsInv(states: seq<State>, events: seq<Event>, i: nat)
    requires IsRun(states, events) && i < |states|
    ensures Inv(states[i])
  {
    hide Next, LinkOk, CallOk;
    if i > 0 {
      RunKeepsInv(states, events, i - 1);
      NextKeepsInv(states[i - 1], events[i - 1], states[i]);
    }
  }

  lemma {:induction false} RunKeeps(states: seq<State>, events: seq<Event>, i: nat, j: nat)
    requires IsRun(states, events) && i <= j < |states|
    ensures Kept(states[i], states[j])
  {
    hide Next, Inv;
    if i < j {
      RunKeeps(states, events, i, j - 1);
      RunKeepsInv(states, events, j - 1);
      NextKeepsInv(states[j - 1], events[j - 1], states[j]);
    }
  }

  /** However calls interleave and die, at most one task ever carries a key's tag; a
      confirmed task carries it and is never replaced; and no call ever finds several
      tasks or has its confirmation refused. */
  lemma AtMostOneTask(states: seq<State>, events: seq<Event>, i: nat, j: nat, key: Key)
    requires IsRun(states, events) && i <= j < |states|
    ensures forall a, b | Tagged(states[i], a, key) && Tagged(states[j], b, key) :: a == b
    ensures key in states[i].log && states[i].log[key].task.Some? ==>
              && key in states[j].log && states[j].log[key].task == states[i].log[key].task
              && Tagged(states[j], states[i].log[key].task.value, key)
    ensures forall p | p in states[i].calls && states[i].calls[p].Answered? ::
              !states[i].calls[p].answer.Several? && !states[i].calls[p].answer.Unconfirmed?
  {
    hide Next, Tag;
    RunKeepsInv(states, events, i);
    RunKeepsInv(states, events, j);
    RunKeeps(states, events, i, j);
    assert OneChance(states[j], key);
    assert forall a | Tagged(states[i], a, key) :: Tagged(states[j], a, key);
    if key in states[i].log { assert LinkOk(states[i], key); }
    forall p | p in states[i].calls && states[i].calls[p].Answered?
      ensures !states[i].calls[p].answer.Several? && !states[i].calls[p].answer.Unconfirmed?
    {
      assert CallOk(states[i], states[i].calls[p]);
    }
  }

  /** Every call that is answered under a key is given the same task. */
  lemma AnswersAgree(states: seq<State>, events: seq<Event>, i: nat, j: nat, p: nat, q: nat)
    requires IsRun(states, events) && i <= j < |states|
    requires p in states[i].calls && states[i].calls[p].Answered? && states[i].calls[p].answer.Linked?
    requires q in states[j].calls && states[j].calls[q].Answered? && states[j].calls[q].answer.Linked?
    requires states[i].calls[p].key == states[j].calls[q].key
    ensures states[i].calls[p].answer.task == states[j].calls[q].answer.task
  {
    hide Next, Tag, OneChance, LinkOk;
    RunKeepsInv(states, events, i);
    RunKeepsInv(states, events, j);
    RunKeeps(states, events, i, j);
    assert CallOk(states[i], states[i].calls[p]) && CallOk(states[j], states[j].calls[q]);
  }

  predicate MadeTask(event: Event, s: State, key: Key) {
    && (event.Creates? || event.CreatesUnheard?)
    && event.p in s.calls && s.calls[event.p].Creating? && s.calls[event.p].key == key
  }

  /** The task is created at most once in a run, heard of or not. */
  lemma CreatedOnce(states: seq<State>, events: seq<Event>, i: nat, j: nat, key: Key)
    requires IsRun(states, events) && i < j < |events|
    requires MadeTask(events[i], states[i], key)
    ensures !MadeTask(events[j], states[j], key)
  {
    hide Tag, AfterIntent, AfterListing, AfterConfirm;
    RunKeepsInv(states, events, j);
    RunKeeps(states, events, i + 1, j);
    assert Tagged(states[i + 1], events[i].task, key);
    assert Tagged(states[j], events[i].task, key);
    assert OneChance(states[j], key);
  }

  // ---- A call on its own ----------------------------------------------------

  /** Steps of one call and nothing else, none of them a death or an answer unheard. */
  predicate IsPathOf(p: nat, s: State, states: seq<State>, events: seq<Event>) {
    && |states| == |events| + 1
    && states[0] == s
    && (forall event | event in events :: !event.Vanishes? && event.p == p && StaysAlive(event))
    && forall i :: 0 <= i < |events| ==> Next(states[i], events[i], states[i + 1])
  }

  predicate StaysAlive(event: Event) {
    !event.Dies? && !event.CreatesUnheard? && !event.ConfirmsUnheard?
  }

  lemma OneMore(p: nat, s: State, states: seq<State>, events: seq<Event>, event: Event, t: State)
    returns (more: seq<State>, longer: seq<Event>)
    requires Inv(s) && IsPathOf(p, s, states, events) && Inv(states[|events|])
    requires Next(states[|events|], event, t) && !event.Vanishes? && event.p == p && StaysAlive(event)
    ensures IsPathOf(p, s, more, longer) && more[|longer|] == t && Inv(t)
  {
    hide Next, Inv;
    NextKeepsInv(states[|events|], event, t);
    more, longer := states + [t], events + [event];
  }

  /** The key's task is there and the host still lists it. */
  predicate StillListed(s: State, task: string, key: Key) {
    Tagged(s, task, key) && task !in s.gone
  }

  lemma ListedIs(s: State, key: Key)
    requires OneChance(s, key)
    ensures |Listed(s, key)| <= 1
    ensures |Listed(s, key)| == 1 <==> exists u :: StillListed(s, u, key)
    ensures forall u :: u in Listed(s, key) <==> StillListed(s, u, key)
  {
    var found := Listed(s, key);
    assert forall u :: u in found <==> StillListed(s, u, key);
    if |found| > 1 {
      MoreThanOne(found);
      assert false;
    }
    if found == {} { assert |found| == 0; } else { var u :| u in found; assert |found| != 0; }
  }

  /** What a call makes of its listing and of its confirmation, in any state: one task is
      confirmed, several are reported, and with none one is created only for a new intent; only
      a log without the intent, or with another task, refuses, and then stays as it is. */
  lemma StepDecides(s: State, pc: Pc)
    requires pc.Listing? || pc.Confirming?
    ensures pc.Listing? ==>
              && (forall t | StillListed(s, t, pc.key) && (forall u | StillListed(s, u, pc.key) :: u == t) ::
                    AfterListing(s, pc) == Confirming(pc.key, pc.research, t, false))
              && ((exists t, u :: t != u && StillListed(s, t, pc.key) && StillListed(s, u, pc.key)) ==>
                    AfterListing(s, pc) == Answered(pc.key, Several))
              && ((forall t :: !StillListed(s, t, pc.key)) ==>
                    AfterListing(s, pc) == if pc.isNew then Creating(pc.key, pc.research) else Answered(pc.key, Lost))
    ensures pc.Confirming? ==>
              AfterConfirm(s, pc) ==
              if pc.key !in s.log then (Answered(pc.key, Unconfirmed(Invalid)), s.log)
              else
                var link := s.log[pc.key];
                if link.task.Some? && link.task.value != pc.task
                then (Answered(pc.key, Unconfirmed(Conflict)), s.log)
                else (Answered(pc.key, Linked(pc.research, pc.task, pc.created)),
                      s.log[pc.key := link.(task := Some(pc.task))])
  {
    var found := Listed(s, pc.key);
    assert forall u :: u in found <==> StillListed(s, u, pc.key);
    hide StillListed, Listed;
    if |found| == 1 {
      OnlyOne(found);
    } else if |found| > 1 {
      MoreThanOne(found);
    } else {
      assert found == {};
    }
  }

  /** A call's steps up to its answer, its creation or its confirmation. */
  lemma UndisturbedListing(s: State, p: nat, call: Call) returns (states: seq<State>, events: seq<Event>)
    requires Inv(s) && p !in s.calls
    ensures IsPathOf(p, s, states, events) && Inv(states[|events|])
    ensures var t := states[|events|];
            && p in t.calls && t.tasks == s.tasks && t.gone == s.gone
            && var pc, accepted := t.calls[p], Intend(s.log, call).0.Success?;
               if !accepted then pc.Answered? && pc.key == call.key && pc.answer.Declined?
               else if exists u :: StillListed(s, u, call.key) then
                 && call.key in s.log && pc.Confirming?
                 && pc == Confirming(call.key, call.research, pc.task, false) && StillListed(s, pc.task, call.key)
               else if call.key !in s.log then pc == Creating(call.key, call.research)
               else pc == Answered(call.key, Lost)
  {
    hide Inv, AfterIntent, AfterListing, Intend, StillListed;
    var s1 := s.(calls := s.calls[p := Asked(call)]);
    states, events := OneMore(p, s, [s], [], Begins(p, call), s1);
    var (pc, log) := AfterIntent(s1, call);
    var s2 := s1.(log := log, calls := s1.calls[p := pc]);
    states, events := OneMore(p, s, states, events, Intends(p), s2);
    IntentGives(s1, call);
    if pc.Listing? {
      states, events := OneMore(p, s, states, events, Lists(p), s2.(calls := s2.calls[p := AfterListing(s2, pc)]));
      ListingLeadsTo(s2, pc);
      SameTasksSameListed(s, s2, call.key);
      if call.key !in s.log { NewKeyHasNoTask(s, call.key); }
    }
  }

  lemma SameTasksSameListed(s: State, t: State, key: Key)
    requires t.tasks == s.tasks && t.gone == s.gone
    ensures forall u :: StillListed(t, u, key) <==> StillListed(s, u, key)
  {
  }

  /** Left alone, every call is answered. It links exactly when its intent is accepted and its
      key is new or the key's task is still listed: an intent whose task was never made, or
      is gone, answers no later call. The task is the new or the listed one, and is recorded. */
  lemma UndisturbedLinks(s: State, p: nat, call: Call, task: string) returns (states: seq<State>, events: seq<Event>)
    requires Inv(s) && p !in s.calls && task !in s.tasks
    ensures IsPathOf(p, s, states, events)
    ensures var t := states[|events|];
            && p in t.calls && t.calls[p].Answered? && t.calls[p].key == call.key
            && var answer := t.calls[p].answer;
               && (answer.Linked? <==>
                   && Intend(s.log, call).0.Success?
                   && (call.key !in s.log || exists u :: StillListed(s, u, call.key)))
               && (answer.Linked? ==>
                     && call.key in t.log && t.log[call.key].task == Some(answer.task)
                     && (answer.created <==> call.key !in s.log)
                     && if answer.created then answer.task == task else StillListed(s, answer.task, call.key))
  {
    hide Inv, AfterConfirm, Tag, Intend, StillListed;
    states, events := UndisturbedListing(s, p, call);
    var last := states[|events|];
    if last.calls[p].Creating? {
      last := last.(tasks := last.tasks[task := Tag(call.key)],
                    calls := last.calls[p := Confirming(call.key, call.research, task, true)]);
      states, events := OneMore(p, s, states, events, Creates(p, task), last);
    }
    if last.calls[p].Confirming? {
      ConfirmLeadsTo(last, p);
      var (answered, confirmed) := AfterConfirm(last, last.calls[p]);
      last := last.(log := confirmed, calls := last.calls[p := answered]);
      states, events := OneMore(p, s, states, events, Confirms(p), last);
    }
  }

  lemma ListingLeadsTo(s: State, pc: Pc)
    requires Inv(s) && pc.Listing?
    ensures var next := AfterListing(s, pc);
            if exists u :: StillListed(s, u, pc.key) then
              && next.Confirming? && next == Confirming(pc.key, pc.research, next.task, false)
              && StillListed(s, next.task, pc.key)
            else if pc.isNew then next == Creating(pc.key, pc.research)
            else next == Answered(pc.key, Lost)
  {
    hide Tag, Listed, StillListed;
    assert OneChance(s, pc.key);
    ListedIs(s, pc.key);
    var found := Listed(s, pc.key);
    if |found| == 1 { assert Only(found) in found; }
  }

  lemma NewKeyHasNoTask(s: State, key: Key)
    requires Inv(s) && key !in s.log
    ensures !exists u :: StillListed(s, u, key)
  {
    hide Tag;
    assert OneChance(s, key);
  }

  lemma ConfirmLeadsTo(s: State, p: nat)
    requires Inv(s) && p in s.calls && s.calls[p].Confirming?
    ensures var pc := s.calls[p];
            var (answered, log) := AfterConfirm(s, pc);
            && answered == Answered(pc.key, Linked(pc.research, pc.task, pc.created))
            && pc.key in log && log[pc.key].task == Some(pc.task)
  {
    hide Tag;
    var key := s.calls[p].key;
    assert CallOk(s, s.calls[p]) && LinkOk(s, key) && OneChance(s, key);
  }
}
