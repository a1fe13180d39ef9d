/** Whole-corpus validation (`validation.rs`): issues are collected, never stopped
    at the first one. */
module Validation {
  import opened Basics
  import opened Naming
  import opened Records

  datatype Issue =
    | Gap(id: RecordId)
    | MissingTarget(id: RecordId, field: Field, target: RecordId)
    | WrongKind(id: RecordId, field: Field, target: RecordId)
    | MissingResearch(id: RecordId, index: nat)
    | NotResearch(id: RecordId, index: nat)
    | FutureRevision(id: RecordId, index: nat)
    | Cycle(id: RecordId)

  /** What an issue says about the corpus it was found in. */
  ghost predicate Holds(records: map<RecordId, Record>, issue: Issue) {
    issue.id in records && Says(records, records[issue.id].meta, issue)
  }

  ghost predicate Says(records: map<RecordId, Record>, meta: Metadata, issue: Issue) {
    match issue
    case Gap(id) =>
      id.number == 0 || exists n :: 1 <= n < id.number && RecordId(id.kind, n) !in records
    case MissingTarget(_, field, target) =>
      target in Targets(meta, field) && target !in records
    case WrongKind(_, field, target) =>
      target in Targets(meta, field) && target in records && !Allowed(field, target.kind)
    case MissingResearch(_, index) =>
      index < |meta.assessments| && meta.assessments[index].research !in records
    case NotResearch(_, index) =>
      index < |meta.assessments| && meta.assessments[index].research in records
      && meta.assessments[index].research.kind != Research
    case FutureRevision(_, index) =>
      index < |meta.assessments| && meta.revision.Some? && meta.assessments[index].revision > meta.revision.value
    case Cycle(id) => OnCycle(records, id)
  }

  ghost predicate AllHold(records: map<RecordId, Record>, issues: seq<Issue>) {
    forall issue | issue in issues :: Holds(records, issue)
  }

  // ---- Numbering ------------------------------------------------------------

  predicate Ascending(numbers: seq<nat>) {
    forall i, j :: 0 <= i < j < |numbers| ==> numbers[i] < numbers[j]
  }

  ghost predicate ListsKind(ids: set<RecordId>, kind: Kind, numbers: seq<nat>) {
    forall n: nat :: n in numbers <==> RecordId(kind, n) in ids
  }

  lemma InsertKeeps(numbers: seq<nat>, n: nat, rest: seq<nat>)
    requires Ascending(numbers) && numbers != [] && numbers[0] < n
    requires Ascending(rest) && forall m :: m in rest <==> m in numbers[1..] || m == n
    ensures Ascending([numbers[0]] + rest)
    ensures forall m :: m in [numbers[0]] + rest <==> m in numbers || m == n
  {
    assert numbers == [numbers[0]] + numbers[1..];
    forall i | 0 <= i < |rest| ensures numbers[0] < rest[i] {
      assert rest[i] in rest;
    }
  }

  function Insert(numbers: seq<nat>, n: nat): (longer: seq<nat>)
    requires Ascending(numbers) && n !in numbers
    ensures Ascending(longer)
    ensures forall m :: m in longer <==> m in numbers || m == n
  {
    if numbers == [] || n < numbers[0] then
      assert forall i :: 0 <= i < |numbers| ==> numbers[0] <= numbers[i];
      [n] + numbers
    else
      var rest := Insert(numbers[1..], n);
      InsertKeeps(numbers, n, rest);
      [numbers[0]] + rest
  }

  /** The numbers of one kind, in order. */
  method SortedNumbers(ids: set<RecordId>, kind: Kind) returns (numbers: seq<nat>)
    ensures Ascending(numbers)
    ensures ListsKind(ids, kind, numbers)
  {
    numbers := [];
    var todo := ids;
    while todo != {}
      invariant todo <= ids
      invariant Ascending(numbers)
      invariant ListsKind(ids - todo, kind, numbers)
    {
      var id :| id in todo;
      todo := todo - {id};
      if id.kind == kind {
        assert id.number !in numbers;
        numbers := Insert(numbers, id.number);
      }
    }
  }

  /** Only the first break in a kind is reported. */
  predicate IsFirst(ids: set<RecordId>, kinds: seq<Kind>, issue: Issue) {
    issue.Gap? && issue.id.kind in kinds && BreaksFirst(ids, issue.id)
  }

  lemma OneMoreKind(ids: set<RecordId>, kinds: seq<Kind>, k: nat, found: Option<Issue>)
    requires k < |kinds| && (found.Some? ==> found.value.Gap? && found.value.id.kind == kinds[k])
    requires forall id: RecordId :: id.kind == kinds[k] ==> (BreaksFirst(ids, id) <==> found == Some(Gap(id)))
    ensures forall issue ::
              IsFirst(ids, kinds[..k + 1], issue) <==> IsFirst(ids, kinds[..k], issue) || found == Some(issue)
  {
    hide BreaksFirst;
    assert kinds[..k + 1] == kinds[..k] + [kinds[k]];
  }

  lemma FirstIs(ids: set<RecordId>)
    ensures forall issue :: !IsFirst(ids, [], issue)
    ensures forall issue ::
              IsFirst(ids, [Hypothesis, Question, Research, Theory], issue) <==>
              issue.Gap? && BreaksFirst(ids, issue.id)
  {
    hide BreaksFirst;
    AllKinds();
  }

  lemma AllKinds()
    ensures forall kind: Kind :: kind in [Hypothesis, Question, Research, Theory]
  {
    var kinds := [Hypothesis, Question, Research, Theory];
    forall kind: Kind ensures kind in kinds {
      match kind {
        case Hypothesis => assert kinds[0] == kind;
        case Question => assert kinds[1] == kind;
        case Research => assert kinds[2] == kind;
        case Theory => assert kinds[3] == kind;
      }
    }
  }

  method CheckNumbering(records: map<RecordId, Record>) returns (issues: seq<Issue>)
    ensures issues == [] <==> NoGaps(records.Keys)
    ensures AllHold(records, issues)
    ensures forall issue :: issue in issues <==> issue.Gap? && BreaksFirst(records.Keys, issue.id)
  {
    hide BreaksFirst, IsFirst;
    issues := [];
    FirstIs(records.Keys);
    var kinds := [Hypothesis, Question, Research, Theory];
    for k := 0 to |kinds|
      invariant AllHold(records, issues)
      invariant forall issue ::
                  issue in issues <==> IsFirst(records.Keys, kinds[..k], issue)
      invariant issues == [] <==>
                forall id :: id in records && id.kind in kinds[..k] ==>
                               1 <= id.number && (1 < id.number ==> RecordId(id.kind, id.number - 1) in records)
    {
      var issue := FirstBreak(records, kinds[k]);
      assert kinds[..k + 1] == kinds[..k] + [kinds[k]];
      OneMoreKind(records.Keys, kinds, k, issue);
      if issue.Some? {
        issues := issues + [issue.value];
      }
    }
    assert kinds[..|kinds|] == kinds;
    AllKinds();
  }

  method FirstBreak(records: map<RecordId, Record>, kind: Kind) returns (issue: Option<Issue>)
    ensures issue.None? <==>
            forall id :: id in records && id.kind == kind ==>
                           1 <= id.number && (1 < id.number ==> RecordId(kind, id.number - 1) in records)
    ensures issue.Some? ==> Holds(records, issue.value) && issue.value.Gap? && issue.value.id.kind == kind
    ensures forall id: RecordId :: id.kind == kind ==> (BreaksFirst(records.Keys, id) <==> issue == Some(Gap(id)))
  {
    var numbers := SortedNumbers(records.Keys, kind);
    for index := 0 to |numbers|
      invariant forall j :: 0 <= j < index ==> numbers[j] == j + 1
    {
      if numbers[index] != index + 1 {
        var id := RecordId(kind, numbers[index]);
        assert numbers[index] in numbers && id in records;
        if id.number != 0 {
          SkipsExpected(numbers, index);
          assert RecordId(kind, index + 1) !in records;
          MissingBelow(records.Keys, id, index + 1);
        }
        BreaksAt(records.Keys, kind, numbers, index);
        return Some(Gap(id));
      }
    }
    forall id | id in records && id.kind == kind
      ensures 1 <= id.number && (1 < id.number ==> RecordId(kind, id.number - 1) in records)
    {
      assert id.number in numbers;
      var j :| 0 <= j < |numbers| && numbers[j] == id.number;
      if 0 < j { assert numbers[j - 1] in numbers; }
    }
    return None;
  }

  /** Where ascending numbers first leave 1, 2, 3, ..., they skip the expected one. */
  lemma SkipsExpected(numbers: seq<nat>, index: nat)
    requires Ascending(numbers) && index < |numbers| && numbers[index] != index + 1 && numbers[index] != 0
    requires forall j :: 0 <= j < index ==> numbers[j] == j + 1
    ensures index + 1 < numbers[index] && index + 1 !in numbers
  {
    assert 0 < index ==> numbers[index - 1] < numbers[index];
    forall j | 0 <= j < |numbers| ensures numbers[j] != index + 1 {
      if index < j { assert numbers[index] < numbers[j]; }
    }
  }

  /** And there they break first. */
  lemma BreaksAt(ids: set<RecordId>, kind: Kind, numbers: seq<nat>, index: nat)
    requires Ascending(numbers) && ListsKind(ids, kind, numbers) && index < |numbers| && numbers[index] != index + 1
    requires forall j :: 0 <= j < index ==> numbers[j] == j + 1
    ensures forall id: RecordId :: id.kind == kind ==> (BreaksFirst(ids, id) <==> id == RecordId(kind, numbers[index]))
  {
    var first := RecordId(kind, numbers[index]);
    assert numbers[index] in numbers;
    if numbers[index] != 0 {
      SkipsExpected(numbers, index);
      forall j | 0 <= j < |numbers| ensures numbers[j] != numbers[index] - 1 {
        if index < j { assert numbers[index] < numbers[j]; }
      }
      assert numbers[index] - 1 !in numbers;
    }
    assert !Follows(ids, first);
    forall other: RecordId | other in ids && other.kind == kind && other.number < numbers[index]
      ensures Follows(ids, other)
    {
      assert other.number in numbers;
      var j :| 0 <= j < |numbers| && numbers[j] == other.number;
      assert j < index;
      if 0 < j { assert numbers[j - 1] in numbers; }
    }
    forall id: RecordId | id.kind == kind && BreaksFirst(ids, id) ensures id == first {
      OneBreak(ids, id, first);
    }
  }

  lemma OneBreak(ids: set<RecordId>, a: RecordId, b: RecordId)
    requires BreaksFirst(ids, a) && BreaksFirst(ids, b) && a.kind == b.kind
    ensures a == b
  {
    hide Follows;
  }

  /** A missing number below an id breaks the run somewhere at or below that id. */
  lemma {:induction false} MissingBelow(ids: set<RecordId>, id: RecordId, n: nat)
    requires id in ids && 1 <= n < id.number && RecordId(id.kind, n) !in ids
    ensures exists other :: other in ids && other.kind == id.kind && 1 < other.number
                            && RecordId(id.kind, other.number - 1) !in ids
    decreases id.number
  {
    var below := RecordId(id.kind, id.number - 1);
    if below in ids {
      MissingBelow(ids, below, n);
    }
  }

  /** The smallest number of its kind that is 0 or has no number right below it. */
  predicate BreaksFirst(ids: set<RecordId>, id: RecordId) {
    && id in ids && !Follows(ids, id)
    && forall other :: other in ids && other.kind == id.kind && other.number < id.number ==> Follows(ids, other)
  }

  predicate Follows(ids: set<RecordId>, id: RecordId) {
    1 <= id.number && (1 < id.number ==> RecordId(id.kind, id.number - 1) in ids)
  }

  /** Gap-free numbering is numbering 1..n: the ids of a kind are exactly those up to its count. */
  lemma {:induction false} NoGapsFills(ids: set<RecordId>, id: RecordId, n: nat)
    requires NoGaps(ids) && id in ids && 1 <= n <= id.number
    ensures RecordId(id.kind, n) in ids
    decreases id.number
  {
    if n < id.number {
      NoGapsFills(ids, RecordId(id.kind, id.number - 1), n);
    }
  }

  // ---- References -----------------------------------------------------------

  predicate TargetSays(records: map<RecordId, Record>, id: RecordId, field: Field, target: RecordId, issue: Issue) {
    if target !in records then issue == MissingTarget(id, field, target)
    else !Allowed(field, target.kind) && issue == WrongKind(id, field, target)
  }

  ghost predicate FieldSays(records: map<RecordId, Record>, id: RecordId, field: Field, targets: seq<RecordId>,
                            issue: Issue)
  {
    exists target :: target in targets && TargetSays(records, id, field, target, issue)
  }

  ghost predicate FieldsSay(records: map<RecordId, Record>, meta: Metadata, id: RecordId, fields: seq<Field>,
                            issue: Issue)
  {
    exists field :: field in fields && FieldSays(records, id, field, Targets(meta, field), issue)
  }

  predicate CitationSays(records: map<RecordId, Record>, meta: Metadata, id: RecordId, index: nat, issue: Issue)
    requires index < |meta.assessments|
  {
    var cited := meta.assessments[index];
    || (cited.research !in records && issue == MissingResearch(id, index))
    || (cited.research in records && cited.research.kind != Research && issue == NotResearch(id, index))
    || (meta.revision.Some? && cited.revision > meta.revision.value && issue == FutureRevision(id, index))
  }

  ghost predicate CitationsSay(records: map<RecordId, Record>, meta: Metadata, id: RecordId, n: nat, issue: Issue)
    requires n <= |meta.assessments|
  {
    exists index: nat :: index < n && CitationSays(records, meta, id, index, issue)
  }

  lemma OneMoreTarget(records: map<RecordId, Record>, id: RecordId, field: Field, targets: seq<RecordId>, t: nat)
    requires t < |targets|
    ensures forall issue :: FieldSays(records, id, field, targets[..t + 1], issue) <==>
                            FieldSays(records, id, field, targets[..t], issue)
                            || TargetSays(records, id, field, targets[t], issue)
  {
    hide TargetSays;
    assert targets[..t + 1] == targets[..t] + [targets[t]];
  }

  lemma OneMoreField(records: map<RecordId, Record>, meta: Metadata, id: RecordId, f: nat)
    requires f < |FIELDS|
    ensures forall issue :: FieldsSay(records, meta, id, FIELDS[..f + 1], issue) <==>
                            FieldsSay(records, meta, id, FIELDS[..f], issue)
                            || FieldSays(records, id, FIELDS[f], Targets(meta, FIELDS[f]), issue)
  {
    hide FieldSays;
    assert FIELDS[..f + 1] == FIELDS[..f] + [FIELDS[f]];
  }

  lemma OneMoreCitation(records: map<RecordId, Record>, meta: Metadata, id: RecordId, a: nat)
    requires a < |meta.assessments|
    ensures forall issue :: CitationsSay(records, meta, id, a + 1, issue) <==>
                            CitationsSay(records, meta, id, a, issue) || CitationSays(records, meta, id, a, issue)
  {
    hide CitationSays;
  }

  lemma NothingSaid(records: map<RecordId, Record>, meta: Metadata, id: RecordId)
    ensures forall issue, field :: !FieldSays(records, id, field, [], issue)
    ensures forall issue :: !FieldsSay(records, meta, id, [], issue) && !CitationsSay(records, meta, id, 0, issue)
  {
  }

  /** An issue about a record's own references and citations. */
  predicate IsOwn(issue: Issue, id: RecordId) {
    issue.id == id && !issue.Gap? && !issue.Cycle?
  }

  lemma SaidIs(records: map<RecordId, Record>, meta: Metadata, id: RecordId)
    ensures forall issue ::
              FieldsSay(records, meta, id, FIELDS, issue) || CitationsSay(records, meta, id, |meta.assessments|, issue)
              <==> IsOwn(issue, id) && Says(records, meta, issue)
  {
    hide Allowed, Targets;
    EveryField();
    forall issue | IsOwn(issue, id) && Says(records, meta, issue)
      ensures FieldsSay(records, meta, id, FIELDS, issue) || CitationsSay(records, meta, id, |meta.assessments|, issue)
    {
      match issue
      case MissingTarget(_, field, target) =>
        assert TargetSays(records, id, field, target, issue);
        assert FieldSays(records, id, field, Targets(meta, field), issue);
      case WrongKind(_, field, target) =>
        assert TargetSays(records, id, field, target, issue);
        assert FieldSays(records, id, field, Targets(meta, field), issue);
      case MissingResearch(_, index) => assert CitationSays(records, meta, id, index, issue);
      case NotResearch(_, index) => assert CitationSays(records, meta, id, index, issue);
      case FutureRevision(_, index) => assert CitationSays(records, meta, id, index, issue);
    }
  }

  lemma EveryField()
    ensures forall field: Field :: field in FIELDS
  {
    assert FIELDS[0] == DerivedFrom && FIELDS[1] == AnsweredBy && FIELDS[2] == Tests && FIELDS[3] == Claims;
    assert FIELDS[4] == Supersedes;
    forall field: Field ensures field in FIELDS {
      match field {
        case DerivedFrom => assert FIELDS[0] == field;
        case AnsweredBy => assert FIELDS[1] == field;
        case Tests => assert FIELDS[2] == field;
        case Claims => assert FIELDS[3] == field;
        case Supersedes => assert FIELDS[4] == field;
      }
    }
  }

  method CheckReferences(records: map<RecordId, Record>, id: RecordId) returns (issues: seq<Issue>)
    requires id in records
    ensures issues == [] <==> RefsOk(records, records[id].meta)
    ensures AllHold(records, issues)
    ensures forall issue :: issue in issues <==> IsOwn(issue, id) && Holds(records, issue)
  {
    hide FieldSays, FieldsSay, CitationsSay;
    var meta := records[id].meta;
    NothingSaid(records, meta, id);
    issues := [];
    for f := 0 to |FIELDS|
      invariant forall issue :: issue in issues <==> FieldsSay(records, meta, id, FIELDS[..f], issue)
      invariant issues == [] <==> forall g :: 0 <= g < f ==> FieldOk(records, meta, FIELDS[g])
    {
      var field := FIELDS[f];
      var targets := Targets(meta, field);
      ghost var earlier := issues;
      OneMoreField(records, meta, id, f);
      for t := 0 to |targets|
        invariant forall issue ::
                    issue in issues <==> issue in earlier || FieldSays(records, id, field, targets[..t], issue)
          invariant issues == [] <==> earlier == [] && forall u :: 0 <= u < t ==> TargetOk(records, field, targets[u])
      {
        var target := targets[t];
        OneMoreTarget(records, id, field, targets, t);
        if target !in records {
          issues := issues + [MissingTarget(id, field, target)];
        } else if !Allowed(field, target.kind) {
          issues := issues + [WrongKind(id, field, target)];
        }
      }
      assert targets[..|targets|] == targets;
    }
    ghost var references := issues;
    assert FIELDS[..|FIELDS|] == FIELDS;
    for a := 0 to |meta.assessments|
      invariant forall issue ::
                  issue in issues <==> issue in references || CitationsSay(records, meta, id, a, issue)
      invariant issues == [] <==>
                references == [] && forall b :: 0 <= b < a ==> CitationOk(records, meta, meta.assessments[b])
    {
      var assessment := meta.assessments[a];
      OneMoreCitation(records, meta, id, a);
      if assessment.research !in records {
        issues := issues + [MissingResearch(id, a)];
      } else if assessment.research.kind != Research {
        issues := issues + [NotResearch(id, a)];
      }
      if meta.revision.Some? && assessment.revision > meta.revision.value {
        issues := issues + [FutureRevision(id, a)];
      }
    }
    SaidIs(records, meta, id);
  }

  // ---- Lineage --------------------------------------------------------------

  /** A record appears after every existing parent it derives from. */
  ghost predicate ParentsFirst(records: map<RecordId, Record>, order: seq<RecordId>) {
    forall i :: 0 <= i < |order| ==>
                  order[i] in records
                  && forall parent | Derives(records, order[i], parent) :: parent in order[..i]
  }

  ghost predicate OnlyCycles(records: map<RecordId, Record>, issues: seq<Issue>) {
    forall issue | issue in issues :: issue.Cycle? && issue.id in records && OnCycle(records, issue.id)
  }

  /** The depth-first search for derivation cycles: the `visiting` and `done` sets
      and the issues `check_lineage` is handed. */
  class LineageWalk {
    const records: map<RecordId, Record>
    var visiting: set<RecordId>
    var done: set<RecordId>
    var issues: seq<Issue>
    /** The records being visited, outermost first. */
    ghost var stack: seq<RecordId>
    /** The finished records, in the order they finished. */
    ghost var order: seq<RecordId>

    ghost predicate Valid()
      reads this
    {
      && visiting <= records.Keys
      && (forall id :: id in stack <==> id in visiting)
      && IsChain(records, stack)
      && OnlyCycles(records, issues)
      && (issues == [] ==> ParentsFirst(records, order) && forall id :: id in order <==> id in done)
    }

    constructor (records: map<RecordId, Record>)
      ensures Valid() && this.records == records
      ensures visiting == {} && stack == [] && issues == []
    {
      this.records := records;
      visiting, done, issues, stack, order := {}, {}, [], [], [];
    }

    method Check(id: RecordId)
      requires Valid()
      requires stack != [] && id in records ==> Derives(records, stack[|stack| - 1], id)
      modifies this
      ensures Valid()
      ensures visiting == old(visiting) && stack == old(stack)
      ensures |old(issues)| <= |issues| && old(done) <= done
      ensures issues == [] && id in records ==> id in done
      decreases |records.Keys - visiting|, 0
    {
      hide OnCycle;
      if id in done || id !in records {
        return;
      }
      if id in visiting {
        Report(id);
        return;
      }
      VisitingMore(records, visiting, id);
      ghost var outer := stack;
      Enter(id);
      CheckParents(id);
      Leave(id, outer);
    }

    method Report(id: RecordId)
      requires Valid() && id in visiting
      requires stack != [] ==> Derives(records, stack[|stack| - 1], id)
      modifies this`issues
      ensures Valid() && |issues| == |old(issues)| + 1
    {
      OnStackIsOnCycle(records, stack, id);
      issues := issues + [Cycle(id)];
    }

    method Enter(id: RecordId)
      requires Valid() && id in records && id !in visiting
      requires stack != [] ==> Derives(records, stack[|stack| - 1], id)
      modifies this`visiting, this`stack
      ensures Valid()
      ensures visiting == old(visiting) + {id} && stack == old(stack) + [id]
    {
      visiting := visiting + {id};
      stack := stack + [id];
    }

    method CheckParents(id: RecordId)
      requires Valid() && id in records
      requires stack != [] && stack[|stack| - 1] == id
      modifies this
      ensures Valid()
      ensures visiting == old(visiting) && stack == old(stack)
      ensures |old(issues)| <= |issues| && old(done) <= done
      ensures issues == [] ==> forall parent | Derives(records, id, parent) :: parent in done
      decreases |records.Keys - visiting|, 1
    {
      var parents := records[id].meta.derivedFrom;
      for i := 0 to |parents|
        invariant Valid() && visiting == old(visiting) && stack == old(stack)
        invariant |old(issues)| <= |issues| && old(done) <= done
        invariant issues == [] ==> forall j :: 0 <= j < i && parents[j] in records ==> parents[j] in done
      {
        Check(parents[i]);
      }
    }

    method Leave(id: RecordId, ghost outer: seq<RecordId>)
      requires Valid() && id in records
      requires stack == outer + [id] && id !in outer
      requires issues == [] ==> forall parent | Derives(records, id, parent) :: parent in done
      modifies this`visiting, this`stack, this`done, this`order
      ensures Valid()
      ensures visiting == old(visiting) - {id} && stack == outer
      ensures done == old(done) + {id}
    {
      if issues == [] {
        ParentsFirstExtends(records, order, id);
      }
      assert forall i :: 0 <= i < |outer| ==> outer[i] == stack[i];
      visiting := visiting - {id};
      stack := outer;
      done := done + {id};
      order := order + [id];
    }
  }

  lemma VisitingMore(records: map<RecordId, Record>, visiting: set<RecordId>, id: RecordId)
    requires id in records && id !in visiting
    ensures |records.Keys - (visiting + {id})| < |records.Keys - visiting|
  {
    assert records.Keys - (visiting + {id}) < records.Keys - visiting;
    SmallerSet(records.Keys - (visiting + {id}), records.Keys - visiting);
  }

  lemma ParentsFirstExtends(records: map<RecordId, Record>, order: seq<RecordId>, id: RecordId)
    requires ParentsFirst(records, order) && id in records
    requires forall parent | Derives(records, id, parent) :: parent in order
    ensures ParentsFirst(records, order + [id])
  {
    var longer := order + [id];
    assert forall i :: 0 <= i < |order| ==> longer[..i] == order[..i];
    assert longer[..|order|] == order;
  }

  lemma SmallerSet(a: set<RecordId>, b: set<RecordId>)
    requires a < b
    ensures |a| < |b|
  {
    assert !(b <= a);
    assert b == a + (b - a);
  }

  /** Reaching a record that is still being visited closes a cycle through it. */
  lemma OnStackIsOnCycle(records: map<RecordId, Record>, stack: seq<RecordId>, id: RecordId)
    requires IsChain(records, stack) && id in stack
    requires Derives(records, stack[|stack| - 1], id)
    ensures OnCycle(records, id)
  {
    var i :| 0 <= i < |stack| && stack[i] == id;
    var chain := stack[i..] + [id];
    assert IsCycle(records, chain);
  }

  /** An order that puts parents first rules cycles out: along a chain, positions only fall. */
  lemma {:induction false} ChainDescends(records: map<RecordId, Record>, order: seq<RecordId>,
                                       chain: seq<RecordId>, i: nat)
    requires ParentsFirst(records, order) && i < |order|
    requires IsChain(records, chain) && 2 <= |chain| && chain[0] == order[i]
    ensures exists j :: 0 <= j < i && order[j] == chain[|chain| - 1]
  {
    assert Derives(records, chain[0], chain[1]);
    var j :| 0 <= j < i && order[..i][j] == chain[1];
    if 2 < |chain| {
      ChainDescends(records, order, chain[1..], j);
    }
  }

  lemma {:induction false} NoCycleFrom(records: map<RecordId, Record>, order: seq<RecordId>,
                                     chain: seq<RecordId>, i: nat)
    requires ParentsFirst(records, order) && i < |order|
    requires IsCycle(records, chain) && chain[0] == order[i]
    ensures false
    decreases i
  {
    ChainDescends(records, order, chain, i);
    var j :| 0 <= j < i && order[j] == chain[|chain| - 1];
    NoCycleFrom(records, order, chain, j);
  }

  lemma OrderedIsAcyclic(records: map<RecordId, Record>, order: seq<RecordId>)
    requires ParentsFirst(records, order)
    requires forall id :: id in records ==> id in order
    ensures Acyclic(records)
  {
    forall chain ensures !IsCycle(records, chain) {
      if IsCycle(records, chain) {
        assert Derives(records, chain[0], chain[1]);
        var i :| 0 <= i < |order| && order[i] == chain[0];
        NoCycleFrom(records, order, chain, i);
      }
    }
  }

  /** Every record is searched; the search reports exactly when a cycle exists. */
  method CheckLineage(records: map<RecordId, Record>) returns (issues: seq<Issue>)
    ensures issues == [] <==> Acyclic(records)
    ensures OnlyCycles(records, issues)
  {
    var walk := new LineageWalk(records);
    var todo := records.Keys;
    while todo != {}
      invariant walk.Valid() && walk.records == records && walk.visiting == {} && walk.stack == []
      invariant todo <= records.Keys
      invariant walk.issues == [] ==> forall id :: id in records && id !in todo ==> id in walk.done
    {
      var id :| id in todo;
      todo := todo - {id};
      walk.Check(id);
    }
    issues := walk.issues;
    if issues == [] {
      OrderedIsAcyclic(records, walk.order);
    } else {
      assert issues[0] in issues && Holds(records, issues[0]);
    }
  }

  // ---- The whole corpus -----------------------------------------------------

  lemma CyclesHold(records: map<RecordId, Record>, issues: seq<Issue>)
    requires OnlyCycles(records, issues)
    ensures AllHold(records, issues)
  {
  }

  /** `validate_records`: no issue exactly when the corpus is well formed. Every issue reported
      is true of it; the first break of each kind's numbers and every bad reference and citation
      are reported. */
  method ValidateRecords(records: map<RecordId, Record>) returns (issues: seq<Issue>)
    ensures issues == [] <==> WellFormed(records)
    ensures AllHold(records, issues)
    ensures forall issue: Issue :: !issue.Cycle? ==>
                              (issue in issues <==>
                               if issue.Gap? then BreaksFirst(records.Keys, issue.id) else Holds(records, issue))
  {
    hide BreaksFirst, Says;
    issues := CheckNumbering(records);
    ghost var numbering := issues;
    var todo := records.Keys;
    while todo != {}
      invariant todo <= records.Keys
      invariant AllHold(records, issues)
      invariant forall issue ::
                  issue in issues <==>
                  || issue in numbering
                  || (issue.id in records && issue.id !in todo && IsOwn(issue, issue.id) && Holds(records, issue))
      invariant issues == [] <==>
                numbering == [] && forall id :: id in records && id !in todo ==> RefsOk(records, records[id].meta)
    {
      var id :| id in todo;
      todo := todo - {id};
      var found := CheckReferences(records, id);
      issues := issues + found;
    }
    var cycles := CheckLineage(records);
    CyclesHold(records, cycles);
    issues := issues + cycles;
  }
}
