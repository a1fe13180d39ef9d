/** The panel of delivered results awaiting acceptance (`panels.rs`), with the cache that
    spares it asking again. */
module Panels {
  import opened Basics
  import opened AcceptanceCache
  import Evidence

  /** A task's stored artifact: evidence, or something that does not read as it. */
  datatype Artifact = Readable(acceptance: Evidence.Acceptance) | Garbled

  /** What the host answers when a task's artifact is asked for. */
  datatype Reply = Missing | Found(artifact: Artifact) | Unavailable | TimedOut | Unreadable {
    predicate Answered() {
      Missing? || Found?
    }
  }

  datatype Standing = Awaiting | Changed | Unknown

  datatype Row = Row(item: Item, standing: Standing, status: string, reason: Option<string>)

  predicate Accepts(reply: Reply, item: Item) {
    reply.Found? && reply.artifact.Readable? && Evidence.Verifies(reply.artifact.acceptance, item.research, item.blob)
  }

  function Label(standing: Standing): string {
    match standing
    case Awaiting => "awaiting acceptance"
    case Changed => "result changed since accepted"
    case Unknown => "acceptance unknown"
  }

  function FailureReason(reply: Reply): string {
    match reply
    case Unavailable => "orbit not available"
    case TimedOut => "orbit call timed out"
    case _ => "task unreadable"
  }

  /** The row of an item that was asked about, or none when it is accepted. */
  function AskedRow(item: Item, reply: Reply): Option<Row> {
    match reply
    case Missing => Some(Row(item, Awaiting, Label(Awaiting), None))
    case Found(Garbled) => Some(Row(item, Unknown, Label(Unknown), Some("artifact unreadable")))
    case Found(Readable(acceptance)) =>
      if acceptance.research != item.research then Some(Row(item, Changed, "acceptance names another result", None))
      else if acceptance.blob != item.blob then Some(Row(item, Changed, Label(Changed), None))
      else None
    case _ => Some(Row(item, Unknown, Label(Unknown), Some(FailureReason(reply))))
  }

  /** How the reads have gone so far. */
  datatype Tally = Tally(failures: nat, successes: nat, unavailable: bool, last: Option<string>)

  const START := Tally(0, 0, false, None)
  const GIVE_UP_AFTER: nat := 3

  /** Asking again cannot help, or nothing has answered yet. */
  predicate GivesUp(tally: Tally) {
    tally.unavailable || (tally.failures >= GIVE_UP_AFTER && tally.successes == 0)
  }

  function Tallied(tally: Tally, reply: Reply): Tally {
    if reply.Answered() then tally.(successes := tally.successes + 1)
    else Tally(tally.failures + 1, tally.successes, tally.unavailable || reply.Unavailable?, Some(FailureReason(reply)))
  }

  function GivenUpRow(item: Item, tally: Tally): Row {
    Row(item, Unknown, Label(Unknown), Some(
          if tally.unavailable then "orbit not available"
          else if tally.last.Some? && tally.last.value != "task unreadable" then tally.last.value
          else "earlier tasks unreadable"))
  }

  /** The tally after the first `n` items; cached ones are not asked about. */
  function TallyAt(items: seq<Item>, replies: seq<Reply>, hits: set<Item>, n: nat): Tally
    requires n <= |items| == |replies|
  {
    if n == 0 then START
    else
      var before := TallyAt(items, replies, hits, n - 1);
      if items[n - 1] in hits || GivesUp(before) then before else Tallied(before, replies[n - 1])
  }

  function RowAt(items: seq<Item>, replies: seq<Reply>, hits: set<Item>, i: nat): Option<Row>
    requires i < |items| == |replies|
  {
    var tally := TallyAt(items, replies, hits, i);
    if items[i] in hits then None
    else if GivesUp(tally) then Some(GivenUpRow(items[i], tally))
    else AskedRow(items[i], replies[i])
  }

  /** The rows of the first `n` items, before they are arranged. */
  function Rows(items: seq<Item>, replies: seq<Reply>, hits: set<Item>, n: nat): seq<Row>
    requires n <= |items| == |replies|
  {
    if n == 0 then []
    else
      var row := RowAt(items, replies, hits, n - 1);
      Rows(items, replies, hits, n - 1) + if row.Some? then [row.value] else []
  }

  // ---- Arranging rows -------------------------------------------------------

  function Rank(standing: Standing): nat {
    match standing
    case Awaiting => 0
    case Changed => 1
    case Unknown => 2
  }

  /** String order. */
  predicate Before(a: string, b: string) {
    if a == "" then true
    else if b == "" then false
    else a[0] < b[0] || (a[0] == b[0] && Before(a[1..], b[1..]))
  }

  lemma {:induction false} BeforeIsTotal(a: string, b: string)
    ensures Before(a, b) || Before(b, a)
  {
    if a != "" && b != "" && a[0] == b[0] {
      BeforeIsTotal(a[1..], b[1..]);
    }
  }

  lemma {:induction false} BeforeIsTransitive(a: string, b: string, c: string)
    requires Before(a, b) && Before(b, c)
    ensures Before(a, c)
  {
    if a != "" && b != "" && c != "" && a[0] == b[0] == c[0] {
      BeforeIsTransitive(a[1..], b[1..], c[1..]);
    }
  }

  predicate Precedes(a: Row, b: Row) {
    Rank(a.standing) < Rank(b.standing)
    || (a.standing == b.standing && Before(a.item.research, b.item.research))
  }

  predicate Arranged(rows: seq<Row>) {
    forall i, j :: 0 <= i < j < |rows| ==> Precedes(rows[i], rows[j])
  }

  /** Awaiting results first, then changed ones, then unknown ones, and each by id. */
  ghost predicate InOrder(rows: seq<Row>) {
    forall i, j :: 0 <= i < j < |rows| ==>
      && (rows[j].standing == Awaiting ==> rows[i].standing == Awaiting)
      && (rows[j].standing == Changed ==> rows[i].standing != Unknown)
      && (rows[i].standing == rows[j].standing ==> Lexicographic(rows[i].item.research, rows[j].item.research))
  }

  /** The first character in which they differ is smaller, or there is none to compare. */
  ghost predicate Lexicographic(a: string, b: string) {
    a <= b || exists k: nat :: SmallerAt(a, b, k)
  }

  ghost predicate SmallerAt(a: string, b: string, k: nat) {
    k < |a| && k < |b| && a[..k] == b[..k] && a[k] < b[k]
  }

  lemma {:induction false} BeforeIsLexicographic(a: string, b: string)
    ensures Before(a, b) <==> Lexicographic(a, b)
  {
    if a != "" && b != "" {
      BeforeIsLexicographic(a[1..], b[1..]);
      FirstCharacters(a, b);
    }
  }

  /** Two texts compare by their first characters, and by the rest only if these are equal. */
  lemma FirstCharacters(a: string, b: string)
    requires a != "" && b != ""
    ensures Lexicographic(a, b) <==> a[0] < b[0] || (a[0] == b[0] && Lexicographic(a[1..], b[1..]))
  {
    var x, y := a[1..], b[1..];
    assert a == [a[0]] + x && b == [b[0]] + y;
    assert a <= b <==> a[0] == b[0] && x <= y;
    if a[0] < b[0] { assert SmallerAt(a, b, 0); }
    if k: nat :| a[0] == b[0] && SmallerAt(x, y, k) {
      assert a[..k + 1] == [a[0]] + x[..k] && b[..k + 1] == [b[0]] + y[..k];
      assert SmallerAt(a, b, k + 1);
    }
    if k: nat :| SmallerAt(a, b, k) {
      DifferLater(a, b, k);
    }
  }

  lemma DifferLater(a: string, b: string, k: nat)
    requires SmallerAt(a, b, k)
    ensures k == 0 ==> a[0] < b[0]
    ensures k > 0 ==> a[0] == b[0] && SmallerAt(a[1..], b[1..], k - 1)
  {
    if k > 0 {
      assert a[0] == a[..k][0] && b[0] == b[..k][0];
      assert a[1..][..k - 1] == a[..k][1..] && b[1..][..k - 1] == b[..k][1..];
    }
  }

  lemma ArrangedIsInOrder(rows: seq<Row>)
    ensures Arranged(rows) <==> InOrder(rows)
  {
    hide Before, Lexicographic;
    forall i, j | 0 <= i < j < |rows|
      ensures Before(rows[i].item.research, rows[j].item.research)
              <==> Lexicographic(rows[i].item.research, rows[j].item.research)
    {
      BeforeIsLexicographic(rows[i].item.research, rows[j].item.research);
    }
  }

  /** Rows by standing, then id. */
  method Arrange(pending: seq<Row>) returns (rows: seq<Row>)
    ensures Arranged(rows) && multiset(rows) == multiset(pending)
    ensures InOrder(rows)
  {
    hide Before;
    rows := [];
    for i := 0 to |pending|
      invariant Arranged(rows) && multiset(rows) == multiset(pending[..i])
    {
      assert pending[..i + 1] == pending[..i] + [pending[i]];
      rows := InsertRow(rows, pending[i]);
    }
    assert pending[..|pending|] == pending;
    ArrangedIsInOrder(rows);
  }

  method InsertRow(rows: seq<Row>, row: Row) returns (more: seq<Row>)
    requires Arranged(rows)
    ensures Arranged(more) && multiset(more) == multiset(rows) + multiset{row}
  {
    hide Before, Rank, Precedes;
    var at := |rows|;
    while 0 < at && !Precedes(rows[at - 1], row)
      invariant 0 <= at <= |rows|
      invariant forall i :: at <= i < |rows| ==> Precedes(row, rows[i])
    {
      PrecedesIsTotal(rows[at - 1], row);
      at := at - 1;
    }
    more := rows[..at] + [row] + rows[at..];
    assert rows == rows[..at] + rows[at..];
    InsertKeepsOrder(rows, row, at);
  }

  lemma InsertKeepsOrder(rows: seq<Row>, row: Row, at: nat)
    requires Arranged(rows) && at <= |rows|
    requires 0 < at ==> Precedes(rows[at - 1], row)
    requires forall i :: at <= i < |rows| ==> Precedes(row, rows[i])
    ensures Arranged(rows[..at] + [row] + rows[at..])
  {
    hide Precedes;
    forall i | 0 <= i < at ensures Precedes(rows[i], row) {
      if i < at - 1 { PrecedesIsTransitive(rows[i], rows[at - 1], row); }
    }
  }

  lemma PrecedesIsTotal(a: Row, b: Row)
    ensures Precedes(a, b) || Precedes(b, a)
  {
    BeforeIsTotal(a.item.research, b.item.research);
  }

  lemma PrecedesIsTransitive(a: Row, b: Row, c: Row)
    requires Precedes(a, b) && Precedes(b, c)
    ensures Precedes(a, c)
  {
    if a.standing == b.standing == c.standing {
      BeforeIsTransitive(a.item.research, b.item.research, c.item.research);
    }
  }

  // ---- The panel ------------------------------------------------------------

  /** Artifacts back a cache when every entry was accepted by its task's artifact. */
  predicate Backed(entries: map<string, Stored>, artifacts: map<string, Artifact>) {
    forall name | name in entries && entries[name].Entry? ::
      Accepts(Live(artifacts, entries[name].item.task), entries[name].item)
  }

  /** What reading a task's artifact would give. */
  function Live(artifacts: map<string, Artifact>, task: string): Reply {
    if task in artifacts then Found(artifacts[task]) else Missing
  }

  /** The host answers truly or not at all. */
  predicate Truthful(items: seq<Item>, replies: seq<Reply>, artifacts: map<string, Artifact>)
    requires |items| == |replies|
  {
    forall i :: 0 <= i < |items| ==> replies[i].Answered() ==> replies[i] == Live(artifacts, items[i].task)
  }

  function HitsOf(usable: bool, entries: map<string, Stored>, items: seq<Item>): set<Item> {
    set i | i in items && usable && Hit(entries, i)
  }

  predicate DistinctResults(items: seq<Item>) {
    forall i, j :: 0 <= i < j < |items| ==> items[i].research != items[j].research
  }

  /** An accepted result whose name is free may be added. */
  predicate MayAdd(before: map<string, Stored>, item: Item, reply: Reply, after: map<string, Stored>) {
    || after == before
    || (&& Accepts(reply, item)
        && CacheName(item).Some? && CacheName(item).value !in before
        && after == before[CacheName(item).value := Entry(item)])
  }

  /** The cache before the first item, between any two, and after the last. */
  predicate Fills(caches: seq<map<string, Stored>>, items: seq<Item>, replies: seq<Reply>)
    requires |items| == |replies|
  {
    && |caches| == |items| + 1
    && forall i :: 0 <= i < |items| ==> MayAdd(caches[i], items[i], replies[i], caches[i + 1])
  }

  /** Some of the results that a live read accepted were added, one by one. */
  ghost predicate Refreshed(before: map<string, Stored>, items: seq<Item>, replies: seq<Reply>,
                            after: map<string, Stored>)
    requires |items| == |replies|
  {
    exists caches :: Fills(caches, items, replies) && caches[0] == before && caches[|items|] == after
  }

  /** Every result without a row has its file in the cache, if it can have one. */
  predicate Recorded(entries: map<string, Stored>, items: seq<Item>, replies: seq<Reply>, hits: set<Item>, n: nat)
    requires n <= |items| == |replies|
  {
    forall i :: 0 <= i < n ==> RowAt(items, replies, hits, i).None? ==> IsNamed(entries, items[i])
  }

  predicate IsNamed(entries: map<string, Stored>, item: Item) {
    CacheName(item).Some? ==> CacheName(item).value in entries
  }

  lemma NoneRecorded(entries: map<string, Stored>, items: seq<Item>, replies: seq<Reply>, hits: set<Item>)
    requires |items| == |replies|
    ensures Recorded(entries, items, replies, hits, 0)
  {
  }

  lemma HitIsNamed(entries: map<string, Stored>, item: Item)
    requires Hit(entries, item)
    ensures IsNamed(entries, item)
  {
    hide CacheName;
  }

  lemma RecordedStep(before: map<string, Stored>, after: map<string, Stored>, items: seq<Item>, replies: seq<Reply>,
                     hits: set<Item>, n: nat)
    requires n < |items| == |replies| && Recorded(before, items, replies, hits, n)
    requires before.Keys <= after.Keys
    requires RowAt(items, replies, hits, n).None? ==> IsNamed(after, items[n])
    ensures Recorded(after, items, replies, hits, n + 1)
  {
    hide RowAt, CacheName;
  }

  method AwaitingAcceptance(items: seq<Item>, replies: seq<Reply>, cache: Cache) returns (rows: seq<Row>)
    requires |items| == |replies| && DistinctResults(items)
    modifies cache
    ensures InOrder(rows)
    ensures multiset(rows) == multiset(Rows(items, replies, HitsOf(cache.usable, old(cache.entries), items), |items|))
    ensures Refreshed(old(cache.entries), items, replies, cache.entries)
    ensures !cache.usable ==> cache.entries == old(cache.entries)
    ensures cache.usable && !cache.failing ==>
              Recorded(cache.entries, items, replies, HitsOf(cache.usable, old(cache.entries), items), |items|)
  {
    hide Hit, CacheName, Accepts, AskedRow, GivenUpRow, GivesUp, InOrder, Arranged, Recorded;
    ghost var hits := HitsOf(cache.usable, cache.entries, items);
    ghost var caches := [cache.entries];
    var tally := START;
    var pending: seq<Row> := [];
    NoneRecorded(cache.entries, items, replies, hits);
    for i := 0 to |items|
      invariant tally == TallyAt(items, replies, hits, i)
      invariant pending == Rows(items, replies, hits, i)
      invariant forall j :: i <= j < |items| ==> (items[j] in hits <==> cache.usable && Hit(cache.entries, items[j]))
      invariant |caches| == i + 1 && caches[0] == old(cache.entries) && caches[i] == cache.entries
      invariant forall j :: 0 <= j < i ==> MayAdd(caches[j], items[j], replies[j], caches[j + 1])
      invariant !cache.usable ==> cache.entries == old(cache.entries)
      invariant cache.usable && !cache.failing ==>
                  Recorded(cache.entries, items, replies, hits, i)
    {
      var item := items[i];
      var hit := cache.IsAccepted(item);
      if hit {
        HitIsNamed(cache.entries, item);
      } else if GivesUp(tally) {
        pending := pending + [GivenUpRow(item, tally)];
      } else {
        tally := Tallied(tally, replies[i]);
        var row := AskedRow(item, replies[i]);
        if row.Some? {
          pending := pending + [row.value];
        } else {
          NoRowIsAccepted(item, replies[i]);
          RecordKeepsHits(cache.entries, item, items, i);
          cache.Record(item);
        }
      }
      if cache.usable && !cache.failing {
        RecordedStep(caches[i], cache.entries, items, replies, hits, i);
      }
      caches := caches + [cache.entries];
    }
    assert Fills(caches, items, replies);
    rows := Arrange(pending);
  }

  lemma NoRowIsAccepted(item: Item, reply: Reply)
    ensures AskedRow(item, reply).None? <==> Accepts(reply, item)
  {
  }

  /** A new entry is no later item's: their ids differ. */
  lemma RecordKeepsHits(entries: map<string, Stored>, item: Item, items: seq<Item>, i: nat)
    requires DistinctResults(items) && i < |items| && items[i] == item
    ensures forall name | CacheName(item) == Some(name) && name !in entries ::
              forall j :: i < j < |items| ==> (Hit(entries[name := Entry(item)], items[j]) <==> Hit(entries, items[j]))
  {
    hide CacheName;
  }

  // ---- What the cache may change --------------------------------------------

  /** Artifacts are only added, so a backed cache stays backed. */
  lemma BackedStays(entries: map<string, Stored>, artifacts: map<string, Artifact>, later: map<string, Artifact>)
    requires Backed(entries, artifacts)
    requires forall task | task in artifacts :: task in later && later[task] == artifacts[task]
    ensures Backed(entries, later)
  {
  }

  predicate AllAnswered(replies: seq<Reply>) {
    forall i :: 0 <= i < |replies| ==> replies[i].Answered()
  }

  lemma {:induction false} NeverGivesUp(items: seq<Item>, replies: seq<Reply>, hits: set<Item>, n: nat)
    requires n <= |items| == |replies| && AllAnswered(replies)
    ensures !GivesUp(TallyAt(items, replies, hits, n)) && TallyAt(items, replies, hits, n).failures == 0
  {
    if n > 0 {
      NeverGivesUp(items, replies, hits, n - 1);
    }
  }

  /** When the host answers every read, the panel lists the same rows as without a cache
      exactly when the read of every cached result would have accepted it. */
  lemma CacheAgreesIff(items: seq<Item>, replies: seq<Reply>, hits: set<Item>)
    requires |items| == |replies| && AllAnswered(replies)
    ensures Rows(items, replies, hits, |items|) == Rows(items, replies, {}, |items|) <==>
            forall i :: 0 <= i < |items| ==> items[i] in hits ==> Accepts(replies[i], items[i])
  {
    hide Accepts, AskedRow, Rows;
    if forall i :: 0 <= i < |items| ==> items[i] in hits ==> Accepts(replies[i], items[i]) {
      AcceptedHitsAgree(items, replies, hits, |items|);
    }
    forall i | 0 <= i < |items| && items[i] in hits && !Accepts(replies[i], items[i])
      ensures Rows(items, replies, hits, |items|) != Rows(items, replies, {}, |items|)
    {
      HitsHaveNoRow(items, replies, hits, |items|);
      UnacceptedHaveRows(items, replies, i, |items|);
    }
  }

  lemma {:induction false} AcceptedHitsAgree(items: seq<Item>, replies: seq<Reply>, hits: set<Item>, n: nat)
    requires n <= |items| == |replies| && AllAnswered(replies)
    requires forall i :: 0 <= i < |items| ==> items[i] in hits ==> Accepts(replies[i], items[i])
    ensures Rows(items, replies, hits, n) == Rows(items, replies, {}, n)
  {
    hide AskedRow, GivesUp, Accepts;
    if n > 0 {
      AcceptedHitsAgree(items, replies, hits, n - 1);
      NeverGivesUp(items, replies, hits, n - 1);
      NeverGivesUp(items, replies, {}, n - 1);
      NoRowIsAccepted(items[n - 1], replies[n - 1]);
    }
  }

  lemma RowIsOfItem(items: seq<Item>, replies: seq<Reply>, hits: set<Item>, i: nat)
    requires i < |items| == |replies| && RowAt(items, replies, hits, i).Some?
    ensures RowAt(items, replies, hits, i).value.item == items[i] && items[i] !in hits
  {
    hide GivesUp, TallyAt;
  }

  lemma {:induction false} HitsHaveNoRow(items: seq<Item>, replies: seq<Reply>, hits: set<Item>, n: nat)
    requires n <= |items| == |replies|
    ensures forall row | row in Rows(items, replies, hits, n) :: row.item !in hits
  {
    hide RowAt;
    if n > 0 {
      HitsHaveNoRow(items, replies, hits, n - 1);
      if RowAt(items, replies, hits, n - 1).Some? {
        RowIsOfItem(items, replies, hits, n - 1);
      }
    }
  }

  lemma {:induction false} UnacceptedHaveRows(items: seq<Item>, replies: seq<Reply>, i: nat, n: nat)
    requires i < n <= |items| == |replies| && AllAnswered(replies) && !Accepts(replies[i], items[i])
    ensures exists row :: row in Rows(items, replies, {}, n) && row.item == items[i]
  {
    hide AskedRow, GivesUp, Accepts;
    if i < n - 1 {
      UnacceptedHaveRows(items, replies, i, n - 1);
      var row :| row in Rows(items, replies, {}, n - 1) && row.item == items[i];
      assert row in Rows(items, replies, {}, n);
    } else {
      NeverGivesUp(items, replies, {}, i);
      NoRowIsAccepted(items[i], replies[i]);
      RowIsOfItem(items, replies, {}, i);
      assert RowAt(items, replies, {}, i).value in Rows(items, replies, {}, n);
    }
  }

  /** So its rows are the same with a backed cache as with none. */
  lemma CacheAgrees(items: seq<Item>, replies: seq<Reply>, usable: bool, entries: map<string, Stored>,
                    artifacts: map<string, Artifact>)
    requires |items| == |replies| && AllAnswered(replies)
    requires Truthful(items, replies, artifacts) && Backed(entries, artifacts)
    ensures Rows(items, replies, HitsOf(usable, entries, items), |items|) == Rows(items, replies, {}, |items|)
  {
    hide Accepts, CacheName, Rows, Hit;
    forall i | 0 <= i < |items| && items[i] in HitsOf(usable, entries, items) ensures Accepts(replies[i], items[i]) {
      HitIsAccepted(items[i], entries, artifacts);
    }
    CacheAgreesIff(items, replies, HitsOf(usable, entries, items));
  }

  lemma HitIsAccepted(item: Item, entries: map<string, Stored>, artifacts: map<string, Artifact>)
    requires Backed(entries, artifacts)
    ensures Hit(entries, item) ==> Accepts(Live(artifacts, item.task), item)
  {
    hide Accepts, CacheName;
  }

  /** Whatever fails, an item without a row was accepted by its task's artifact: the cache
      hides only (id, task, blob) triples that passed `verify`, though names are lossy. */
  lemma NoRowMeansAccepted(items: seq<Item>, replies: seq<Reply>, usable: bool, entries: map<string, Stored>,
                            artifacts: map<string, Artifact>, i: nat)
    requires i < |items| == |replies|
    requires Truthful(items, replies, artifacts) && Backed(entries, artifacts)
    requires RowAt(items, replies, HitsOf(usable, entries, items), i).None?
    ensures Accepts(Live(artifacts, items[i].task), items[i])
  {
    hide AskedRow, GivesUp, Accepts, CacheName;
    NoRowIsAccepted(items[i], replies[i]);
    HitIsAccepted(items[i], entries, artifacts);
    AcceptedIsAnswered(items[i], replies[i]);
  }

  lemma AcceptedIsAnswered(item: Item, reply: Reply)
    ensures Accepts(reply, item) ==> reply.Answered()
  {
  }

  /** When the host answers every read, an item's row tells what is stored on its task:
      nothing, evidence for something else, or something unreadable. */
  lemma RowTellsStored(items: seq<Item>, replies: seq<Reply>, usable: bool, entries: map<string, Stored>,
                            artifacts: map<string, Artifact>, i: nat)
    requires i < |items| == |replies| && AllAnswered(replies)
    requires Truthful(items, replies, artifacts) && Backed(entries, artifacts)
    ensures var row, item := RowAt(items, replies, HitsOf(usable, entries, items), i), items[i];
            var stored := Live(artifacts, item.task);
            && (row.None? <==> Accepts(stored, item))
            && (row.Some? && row.value.standing == Awaiting <==> item.task !in artifacts)
            && (row.Some? && row.value.standing == Changed <==>
                  stored.Found? && stored.artifact.Readable? && !Accepts(stored, item))
            && (row.Some? && row.value.standing == Unknown <==> stored == Found(Garbled))
  {
    hide CacheName, GivesUp, GivenUpRow;
    NeverGivesUp(items, replies, HitsOf(usable, entries, items), i);
    HitIsAccepted(items[i], entries, artifacts);
  }

  // ---- Rows the cache invents -----------------------------------------------

  /** The cache adds a row for an accepted result that would have had none. */
  predicate Invented(items: seq<Item>, replies: seq<Reply>, hits: set<Item>, i: nat)
    requires i < |items| == |replies|
  {
    RowAt(items, replies, hits, i).Some? && RowAt(items, replies, {}, i).None?
  }

  lemma {:induction false} GivingUpLasts(items: seq<Item>, replies: seq<Reply>, hits: set<Item>, m: nat, n: nat)
    requires m <= n <= |items| == |replies| && !GivesUp(TallyAt(items, replies, hits, n))
    ensures !GivesUp(TallyAt(items, replies, hits, m))
  {
    hide GivesUp, Tallied;
    if m < n {
      GivingUpLasts(items, replies, hits, m, n - 1);
    }
  }

  /** While no cached result would have answered, the cached panel keeps asking as long as
      the other does. */
  lemma {:induction false} UnansweredHitsChangeNothing(items: seq<Item>, replies: seq<Reply>, hits: set<Item>, n: nat)
    requires n <= |items| == |replies| && !GivesUp(TallyAt(items, replies, {}, n))
    requires forall h :: 0 <= h < n && items[h] in hits ==> !replies[h].Answered()
    ensures var cached, plain := TallyAt(items, replies, hits, n), TallyAt(items, replies, {}, n);
            && (cached.unavailable ==> plain.unavailable) && cached.failures <= plain.failures
            && cached.successes == plain.successes && !GivesUp(cached)
  {
    if n > 0 {
      GivingUpLasts(items, replies, {}, n - 1, n);
      UnansweredHitsChangeNothing(items, replies, hits, n - 1);
    }
  }

  /** The replies to the uncached of the first `n` items, in order. */
  function Uncached(items: seq<Item>, replies: seq<Reply>, hits: set<Item>, n: nat): seq<Reply>
    requires n <= |items| == |replies|
  {
    if n == 0 then []
    else
      var before := Uncached(items, replies, hits, n - 1);
      if items[n - 1] in hits then before else before + [replies[n - 1]]
  }

  /** There are three or more, and the first three are all unanswered. */
  predicate ThreeFail(replies: seq<Reply>) {
    3 <= |replies| && !replies[0].Answered() && !replies[1].Answered() && !replies[2].Answered()
  }

  predicate NoneAnswered(replies: seq<Reply>) {
    forall i :: 0 <= i < |replies| ==> !replies[i].Answered()
  }

  /** The panel has given up exactly when some uncached read was unavailable or the first
      three of them all failed. */
  lemma {:induction false} GivesUpIff(items: seq<Item>, replies: seq<Reply>, hits: set<Item>, n: nat)
    requires n <= |items| == |replies|
    ensures var tally, asked := TallyAt(items, replies, hits, n), Uncached(items, replies, hits, n);
            && (GivesUp(tally) <==> ThreeFail(asked) || Unavailable in asked)
            && (!GivesUp(tally) ==>
                  && tally.failures + tally.successes == |asked|
                  && (tally.successes == 0 <==> NoneAnswered(asked)))
  {
    hide NoneAnswered, ThreeFail;
    OneMore([], Unavailable);
    if n > 0 {
      GivesUpIff(items, replies, hits, n - 1);
      if items[n - 1] !in hits {
        OneMore(Uncached(items, replies, hits, n - 1), replies[n - 1]);
      }
    }
  }

  lemma OneMore(before: seq<Reply>, reply: Reply)
    ensures NoneAnswered([]) && !ThreeFail([])
    ensures NoneAnswered(before) && 3 <= |before| ==> ThreeFail(before)
    ensures NoneAnswered(before + [reply]) <==> NoneAnswered(before) && !reply.Answered()
    ensures Unavailable in before + [reply] <==> Unavailable in before || reply == Unavailable
    ensures ThreeFail(before + [reply]) <==>
            ThreeFail(before) || (|before| == 2 && NoneAnswered(before) && !reply.Answered())
  {
    var after := before + [reply];
    assert after[|before|] == reply && forall i :: 0 <= i < |before| ==> after[i] == before[i];
  }

  lemma {:induction false} AllUncached(items: seq<Item>, replies: seq<Reply>, n: nat)
    requires n <= |items| == |replies|
    ensures Uncached(items, replies, {}, n) == replies[..n]
  {
    if n > 0 {
      AllUncached(items, replies, n - 1);
    }
  }

  lemma {:induction false} UncachedAreReplies(items: seq<Item>, replies: seq<Reply>, hits: set<Item>, n: nat)
    requires n <= |items| == |replies|
    ensures |Uncached(items, replies, hits, n)| <= n
    ensures forall reply | reply in Uncached(items, replies, hits, n) :: reply in replies[..n]
  {
    if n > 0 {
      UncachedAreReplies(items, replies, hits, n - 1);
      assert replies[..n] == replies[..n - 1] + [replies[n - 1]];
    }
  }

  /** The panel's documentation says its cache can never invent a row. It does, for exactly
      the accepted, uncached results before which no read is unavailable, one of the first
      three reads would be answered, and yet the first three uncached reads all failed; then
      some cached result's read would have been answered. */
  lemma InventedIff(items: seq<Item>, replies: seq<Reply>, hits: set<Item>, i: nat)
    requires i < |items| == |replies|
    ensures Invented(items, replies, hits, i) <==>
            && items[i] !in hits && Accepts(replies[i], items[i])
            && Unavailable !in replies[..i]
            && ThreeFail(Uncached(items, replies, hits, i))
            && 3 <= i && (replies[0].Answered() || replies[1].Answered() || replies[2].Answered())
    ensures Invented(items, replies, hits, i) ==> exists h :: 0 <= h < i && items[h] in hits && replies[h].Answered()
  {
    hide GivesUp, Accepts, AskedRow, GivenUpRow, TallyAt, Uncached;
    NoRowIsAccepted(items[i], replies[i]);
    GivesUpIff(items, replies, hits, i);
    GivesUpIff(items, replies, {}, i);
    AllUncached(items, replies, i);
    UncachedAreReplies(items, replies, hits, i);
    if Invented(items, replies, hits, i) && forall h :: 0 <= h < i && items[h] in hits ==> !replies[h].Answered() {
      UnansweredHitsChangeNothing(items, replies, hits, i);
    }
  }

  /** In a run of three failed reads after a cached result, the next accepted result gets a
      row it would not have without the cache. */
  lemma CacheInventsARow(items: seq<Item>, replies: seq<Reply>, hits: set<Item>)
    requires |items| == |replies| == 5
    requires items[0] in hits && items[1] !in hits && items[2] !in hits && items[3] !in hits && items[4] !in hits
    requires replies[0].Answered() && replies[1] == replies[2] == replies[3] == TimedOut
    requires Accepts(replies[4], items[4])
    ensures Invented(items, replies, hits, 4)
  {
    hide Accepts, AskedRow, GivenUpRow, RowAt;
    InventedIff(items, replies, hits, 4);
    UncachedOfFour(items, replies, hits);
  }

  lemma UncachedOfFour(items: seq<Item>, replies: seq<Reply>, hits: set<Item>)
    requires |items| == |replies| == 5
    requires items[0] in hits && items[1] !in hits && items[2] !in hits && items[3] !in hits
    ensures Uncached(items, replies, hits, 4) == [replies[1], replies[2], replies[3]]
  {
    assert Uncached(items, replies, hits, 1) == [];
    assert Uncached(items, replies, hits, 2) == [replies[1]];
    assert Uncached(items, replies, hits, 3) == [replies[1], replies[2]];
  }

  // ---- What a row says ------------------------------------------------------

  /** A result that is asked about has the row of what its task answered, and none exactly when
      that is evidence for it and its README. */
  lemma RowSays(items: seq<Item>, replies: seq<Reply>, hits: set<Item>, i: nat)
    requires i < |items| == |replies| && items[i] !in hits
    requires !ThreeFail(Uncached(items, replies, hits, i)) && Unavailable !in Uncached(items, replies, hits, i)
    ensures RowAt(items, replies, hits, i) ==
            match replies[i]
            case Missing => Some(Row(items[i], Awaiting, "awaiting acceptance", None))
            case Found(Garbled) => Some(Row(items[i], Unknown, "acceptance unknown", Some("artifact unreadable")))
            case Found(Readable(evidence)) =>
              if evidence.research == items[i].research && evidence.blob == items[i].blob then None
              else Some(Row(items[i], Changed, if evidence.research != items[i].research
                                               then "acceptance names another result"
                                               else "result changed since accepted", None))
            case Unavailable => Some(Row(items[i], Unknown, "acceptance unknown", Some("orbit not available")))
            case TimedOut => Some(Row(items[i], Unknown, "acceptance unknown", Some("orbit call timed out")))
            case Unreadable => Some(Row(items[i], Unknown, "acceptance unknown", Some("task unreadable")))
  {
    hide GivesUp, TallyAt, Uncached, ThreeFail;
    GivesUpIff(items, replies, hits, i);
  }

  /** Why the panel gave up: a read that was unavailable, or else the third failure. */
  lemma {:induction false} GaveUpOn(items: seq<Item>, replies: seq<Reply>, hits: set<Item>, n: nat)
    requires n <= |items| == |replies| && GivesUp(TallyAt(items, replies, hits, n))
    ensures var tally, asked := TallyAt(items, replies, hits, n), Uncached(items, replies, hits, n);
            && (tally.unavailable <==> Unavailable in (if ThreeFail(asked) then asked[..3] else asked))
            && (!tally.unavailable ==> 3 <= |asked| && tally.last == Some(FailureReason(asked[2])))
  {
    if n > 0 {
      var before, asked := Uncached(items, replies, hits, n - 1), Uncached(items, replies, hits, n);
      GivesUpIff(items, replies, hits, n - 1);
      GivesUpIff(items, replies, hits, n);
      if GivesUp(TallyAt(items, replies, hits, n - 1)) {
        GaveUpOn(items, replies, hits, n - 1);
        if items[n - 1] !in hits {
          assert 3 <= |before| ==> asked[..3] == before[..3];
          assert forall r :: r in asked <==> r in before || r == replies[n - 1];
          assert ThreeFail(asked) && !ThreeFail(before) ==> |before| == 2 && asked[..3] == asked;
        }
      } else {
        OneMore(before, replies[n - 1]);
        assert |before| == 2 ==> (before + [replies[n - 1]])[..3] == before + [replies[n - 1]];
      }
    }
  }

  /** Once given up, a result that is not cached is unknown for that reason. */
  lemma GivenUpSays(items: seq<Item>, replies: seq<Reply>, hits: set<Item>, i: nat)
    requires i < |items| == |replies| && items[i] !in hits
    requires ThreeFail(Uncached(items, replies, hits, i)) || Unavailable in Uncached(items, replies, hits, i)
    ensures var asked := Uncached(items, replies, hits, i);
            RowAt(items, replies, hits, i) ==
            Some(Row(items[i], Unknown, "acceptance unknown",
                     Some(if Unavailable in (if ThreeFail(asked) then asked[..3] else asked) then "orbit not available"
                          else if asked[2] == TimedOut then "orbit call timed out"
                          else "earlier tasks unreadable")))
  {
    hide GivesUp, TallyAt, Uncached;
    GivesUpIff(items, replies, hits, i);
    GaveUpOn(items, replies, hits, i);
  }
}
