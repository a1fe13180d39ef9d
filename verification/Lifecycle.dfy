/** Record edits (`edit.rs`): revisions of a statement and append-only verdicts. */
module Lifecycle {
  import opened Basics
  import opened Naming
  import opened Records
  import Text

  /** Requested changes; `None` keeps the current value. */
  datatype Edit = Edit(
    title: Option<string>, body: Option<string>, tags: Option<seq<string>>, status: Option<string>,
    tests: Option<seq<RecordId>>, orbit: Option<Provenance>, manifest: Option<string>)

  /** What a caller judges: a revision of a hypothesis, in the light of a research record. */
  datatype Verdict = Verdict(research: RecordId, revision: nat, verdict: string, strength: string, note: Option<string>)

  const DROPPED := "dropped"
  const OPEN := "open"

  function CheckedTitle(title: string): Result<string> {
    if Text.Trim(title) == "" then Failure(InvalidInput) else Success(Text.Trim(title))
  }

  // ---- The heading follows the title ----------------------------------------

  function Heading(id: RecordId, title: string): string
    requires id.number < 1000
  {
    "# " + IdText(id) + " \U{2014} " + title
  }

  function TextEnd(raw: string, start: nat): (stop: nat)
    requires start <= |raw|
    ensures start <= stop <= |raw|
  {
    Text.TextEnd(raw, start, Text.LineEnd(raw, start))
  }

  /** Where the first non-blank line at or after `start` begins, or the end. */
  function SkipBlank(raw: string, start: nat): (first: nat)
    requires start <= |raw|
    ensures start <= first <= |raw|
    decreases |raw| - start
  {
    if start == |raw| || !Text.BlankBetween(raw, start, TextEnd(raw, start)) then start
    else SkipBlank(raw, Text.LineEnd(raw, start))
  }

  /** Replace the first non-blank line when it is exactly `from`. */
  function Retitled(raw: string, from: string, to: string): string {
    var first := SkipBlank(raw, 0);
    var stop := TextEnd(raw, first);
    if first < |raw| && raw[first..stop] == from then raw[..first] + to + raw[stop..] else raw
  }

  method RetitleHeading(raw: string, from: string, to: string) returns (result: string)
    ensures result == Retitled(raw, from, to)
  {
    var offset := 0;
    while offset < |raw|
      invariant 0 <= offset <= |raw|
      invariant SkipBlank(raw, 0) == SkipBlank(raw, offset)
    {
      var stop := TextEnd(raw, offset);
      if !Text.BlankBetween(raw, offset, stop) {
        return if raw[offset..stop] == from then raw[..offset] + to + raw[stop..] else raw;
      }
      offset := Text.LineEnd(raw, offset);
    }
    return raw;
  }

  lemma {:induction false} LineEndIs(s: string, start: nat, k: nat)
    requires start <= k < |s| && s[k] == '\n' && forall i :: start <= i < k ==> s[i] != '\n'
    ensures Text.LineEnd(s, start) == k + 1
    decreases k - start
  {
    if start < k {
      LineEndIs(s, start + 1, k);
    }
  }

  /** A title of one line: a heading keeps it on its line. */
  predicate OneLineTitle(title: string) {
    title != "" && '\n' !in title && title[|title| - 1] != '\r'
  }

  /** In a body that still opens with its scaffolded heading, the heading follows the title
      and nothing else moves. */
  lemma HeadingFollowsTitle(id: RecordId, title: string, next: string, rest: string)
    requires id.number < 1000 && OneLineTitle(title)
    ensures Retitled("\n" + Heading(id, title) + "\n" + rest, Heading(id, title), Heading(id, next))
         == "\n" + Heading(id, next) + "\n" + rest
  {
    hide Text.LineEnd;
    var heading := Heading(id, title);
    var raw := "\n" + heading + "\n" + rest;
    HeadingIsALine(id, title);
    LineEndIs(raw, 0, 0);
    assert forall i :: 1 <= i < 1 + |heading| ==> raw[i] == heading[i - 1];
    LineEndIs(raw, 1, 1 + |heading|);
    assert raw[|heading|] == heading[|heading| - 1];
    assert Text.TextEnd(raw, 1, 1 + |heading|) == 1 + |heading|;
    assert TextEnd(raw, 0) == 0 && TextEnd(raw, 1) == 1 + |heading|;
    assert raw[1] == '#';
    assert SkipBlank(raw, 1) == 1 && SkipBlank(raw, 0) == 1;
    assert raw[1..1 + |heading|] == heading && raw[..1] == "\n" && raw[1 + |heading|..] == "\n" + rest;
    assert "\n" + Heading(id, next) + ("\n" + rest) == "\n" + Heading(id, next) + "\n" + rest;
  }

  lemma HeadingIsALine(id: RecordId, title: string)
    requires id.number < 1000 && OneLineTitle(title)
    ensures var heading := Heading(id, title);
            heading != "" && heading[0] == '#' && '\n' !in heading
            && heading[|heading| - 1] != '\n' && heading[|heading| - 1] != '\r'
  {
    var heading := Heading(id, title);
    assert heading[|heading| - 1] == title[|title| - 1];
  }

  // ---- Revision -------------------------------------------------------------

  function RevisedTitle(meta: Metadata, edit: Edit): Result<string> {
    match edit.title
    case None => Success(meta.title)
    case Some(title) => CheckedTitle(title)
  }

  predicate BodyChanged(record: Record, edit: Edit) {
    edit.body.Some? && Text.Trim(edit.body.value) != Text.Trim(record.body)
  }

  function NewBody(record: Record, edit: Edit): string {
    match edit.body
    case Some(body) => "\n" + body + "\n"
    case None => record.body
  }

  /** Frontmatter after a title change: the slug frozen in the path is declared
      once the title no longer gives it. */
  function Retitle(meta: Metadata, slug: string, title: string): Metadata {
    if title == meta.title then meta
    else meta.(title := title,
         slug := if meta.slug.None? && Kebab(title) != slug then Some(slug) else meta.slug)
  }

  /** A changed statement is a new revision, judged afresh unless it was dropped. */
  function NewRevision(meta: Metadata, changed: bool): Result<Metadata> {
    if meta.id.kind != Hypothesis || !changed then Success(meta)
    else match meta.revision
         case None => Failure(Invalid)
         case Some(n) =>
           var status := if meta.status == DROPPED then DROPPED else OPEN;
           Success(meta.(revision := Some(n + 1), status := status))
  }

  function Or<T>(choice: Option<T>, current: T): T {
    if choice.Some? then choice.value else current
  }

  /** The other fields the edit names. */
  function Edited(meta: Metadata, edit: Edit, today: string): Metadata {
    meta.(tags := Or(edit.tags, meta.tags),
    status := Or(edit.status, meta.status),
    tests := Or(edit.tests, meta.tests),
    orbit := if edit.orbit.Some? then edit.orbit else meta.orbit,
    updated := today)
  }

  function RevisedRaw(record: Record, edit: Edit, title: string): string
    requires record.meta.id.number < 1000
  {
    var raw := NewBody(record, edit);
    if title == record.meta.title then raw
    else Retitled(raw, Heading(record.meta.id, record.meta.title), Heading(record.meta.id, title))
  }

  function Revise(record: Record, edit: Edit, today: string): Result<Content>
    requires record.path.RecordFile? && record.meta.id.number < 1000
  {
    var meta := record.meta;
    var kind := meta.id.kind;
    var _ :- Need(kind == Research || (edit.tests.None? && edit.orbit.None? && edit.manifest.None?), InvalidInput);
    var _ :- Need(!(kind == Hypothesis || kind == Theory)
                  || edit.body.None? || Text.Trim(edit.body.value) != "", InvalidInput);
    var title :- RevisedTitle(meta, edit);
    var renamed := Retitle(meta, record.path.slug, title);
    var revised :- NewRevision(renamed, title != meta.title || BodyChanged(record, edit));
    Success(Rendered(Edited(revised, edit, today), RevisedRaw(record, edit, title)))
  }

  // ---- Assessment -----------------------------------------------------------

  /** Append one verdict. `verdictStatus` is the owner schema's table. */
  function Assess(records: map<RecordId, Record>, record: Record, verdict: Verdict,
                  verdictStatus: map<string, string>, today: string): Result<Content>
  {
    var meta := record.meta;
    var _ :- Need(meta.id.kind == Hypothesis, Invalid);
    var _ :- Need(meta.revision.Some? && 1 <= verdict.revision <= meta.revision.value, Invalid);
    var _ :- Need(verdict.research in records, NotFound);
    var _ :- Need(verdict.research.kind == Research, Invalid);
    var note := if verdict.note.Some? && Text.Trim(verdict.note.value) != ""
                then Some(Text.Trim(verdict.note.value)) else None;
    var entry := Assessment(today, verdict.research, verdict.revision, verdict.verdict, verdict.strength, note);
    var judged := verdict.revision == meta.revision.value && meta.status != DROPPED && verdict.verdict in verdictStatus;
    Success(Rendered(meta.(assessments := meta.assessments + [entry],
                     status := if judged then verdictStatus[verdict.verdict] else meta.status,
                     updated := today),
                     record.body))
  }

  // ---- What a change writes, field by field ---------------------------------

  /** When an edit is accepted. A revision that cannot be raised is refused last. */
  predicate EditAllowed(record: Record, edit: Edit) {
    && (record.meta.id.kind == Research || (edit.tests == None && edit.orbit == None && edit.manifest == None))
    && (record.meta.id.kind in {Hypothesis, Theory} && edit.body.Some? ==> Text.Trim(edit.body.value) != "")
    && (edit.title.Some? ==> Text.Trim(edit.title.value) != "")
    && (record.meta.id.kind == Hypothesis && record.meta.revision == None ==> !Restated(record, edit))
  }

  /** The edit names another title, or a body that differs beyond white space around it. */
  predicate Restated(record: Record, edit: Edit) {
    || (edit.title.Some? && Text.Trim(edit.title.value) != record.meta.title)
    || (edit.body.Some? && Text.Trim(edit.body.value) != Text.Trim(record.body))
  }

  /** What the edit's frontmatter holds: what the edit names, and otherwise what was there. */
  predicate EditedMeta(record: Record, edit: Edit, today: string, after: Metadata)
    requires record.path.RecordFile?
  {
    var before, slug := record.meta, record.path.slug;
    && after.id == before.id && after.created == before.created && after.updated == today
    && after.derivedFrom == before.derivedFrom && after.answeredBy == before.answeredBy
    && after.claims == before.claims && after.supersedes == before.supersedes
    && after.assessments == before.assessments
    && after.title == (if edit.title.Some? then Text.Trim(edit.title.value) else before.title)
    && (after.slug == before.slug
        || (after.slug == Some(slug) && before.slug == None
            && Kebab(after.title) != slug && after.title != before.title))
    && (after.title != before.title && Kebab(after.title) != slug ==> after.slug != None)
    && after.tags == (if edit.tags.Some? then edit.tags.value else before.tags)
    && after.tests == (if edit.tests.Some? then edit.tests.value else before.tests)
    && after.orbit == (if edit.orbit.Some? then edit.orbit else before.orbit)
    && (edit.status.Some? ==> after.status == edit.status.value)
    && (edit.status == None ==>
          after.status == if before.id.kind == Hypothesis && Restated(record, edit) && before.status != "dropped"
                          then "open" else before.status)
    && (if before.id.kind == Hypothesis && Restated(record, edit)
        then before.revision.Some? && after.revision == Some(before.revision.value + 1)
        else after.revision == before.revision)
  }

  /** The text an edit gives: its frontmatter, and the body sent or kept, under its new
      heading where it opened with the old one. */
  ghost predicate EditWritten(record: Record, edit: Edit, today: string, text: Content)
    requires record.path.RecordFile? && record.meta.id.number < 1000
  {
    && text.Document? && text.form == CANONICAL
    && EditedMeta(record, edit, today, text.meta)
    && var sent := if edit.body.Some? then "\n" + edit.body.value + "\n" else record.body;
    && (text.meta.title == record.meta.title ==> text.raw == sent)
    && (text.meta.title != record.meta.title ==>
          Headed(sent, Heading(record.meta.id, record.meta.title), Heading(record.meta.id, text.meta.title), text.raw))
  }

  /** `after` is `raw` with its first line that is not blank replaced if it is `from`, its
      line ending kept; or `raw` itself. */
  ghost predicate Headed(raw: string, from: string, to: string, after: string) {
    if Text.Blank(raw) then after == raw
    else
      exists i: nat, j: nat ::
        FirstLine(raw, i, j) && after == if raw[i..j] == from then raw[..i] + to + raw[j..] else raw
  }

  /** The first line that is not blank is `s[i..j]`, without its line ending. */
  ghost predicate FirstLine(s: string, i: nat, j: nat) {
    && i < j <= |s|
    && Text.Blank(s[..i]) && !Text.Blank(s[i..j])
    && (i > 0 ==> s[i - 1] == '\n')
    && '\n' !in s[i..j] && s[j - 1] != '\r'
    && exists k :: IsEnding(s, j, k)
  }

  /** Carriage returns up to a newline, or up to the end. */
  predicate IsEnding(s: string, j: nat, k: nat) {
    j <= k <= |s| && (k < |s| ==> s[k] == '\n') && forall m :: j <= m < k ==> s[m] == '\r'
  }

  lemma {:induction false} LineEndsAt(s: string, start: nat)
    requires start < |s|
    ensures var end := Text.LineEnd(s, start);
            (end == |s| || s[end - 1] == '\n') && forall i :: start <= i < end - 1 ==> s[i] != '\n'
    decreases |s| - start
  {
    if s[start] != '\n' && start + 1 < |s| {
      LineEndsAt(s, start + 1);
    }
  }

  lemma {:induction false} TextEndsAt(s: string, start: nat, end: nat)
    requires start <= end <= |s|
    ensures var stop := Text.TextEnd(s, start, end);
            && (stop == start || (s[stop - 1] != '\n' && s[stop - 1] != '\r'))
            && forall i :: stop <= i < end ==> s[i] == '\n' || s[i] == '\r'
    decreases end
  {
    if start < end && (s[end - 1] == '\n' || s[end - 1] == '\r') {
      TextEndsAt(s, start, end - 1);
    }
  }

  lemma BlankLineIsBlank(s: string, start: nat)
    requires start < |s| && Text.BlankBetween(s, start, TextEnd(s, start))
    ensures Text.Blank(s[start..Text.LineEnd(s, start)])
  {
    hide Text.LineEnd, Text.TextEnd;
    TextEndsAt(s, start, Text.LineEnd(s, start));
    var line := s[start..Text.LineEnd(s, start)];
    forall i | 0 <= i < |line| ensures Text.IsSpace(line[i]) {
      assert line[i] == s[start + i];
    }
  }

  lemma {:induction false} SkippedIsBlank(s: string, start: nat)
    requires start <= |s| && (start > 0 ==> s[start - 1] == '\n' || start == |s|)
    ensures var first := SkipBlank(s, start);
            && Text.Blank(s[start..first])
            && (first < |s| ==> !Text.BlankBetween(s, first, TextEnd(s, first)) && (first > 0 ==> s[first - 1] == '\n'))
    decreases |s| - start
  {
    hide Text.IsSpace, Text.LineEnd, Text.BlankBetween, TextEnd;
    if start < |s| && Text.BlankBetween(s, start, TextEnd(s, start)) {
      var end := Text.LineEnd(s, start);
      LineEndsAt(s, start);
      BlankLineIsBlank(s, start);
      SkippedIsBlank(s, end);
      assert s[start..SkipBlank(s, end)] == s[start..end] + s[end..SkipBlank(s, end)];
    }
  }

  /** The line at `i`, when it is not blank. */
  lemma FirstLineAt(s: string, i: nat)
    requires i < |s| && Text.Blank(s[..i]) && (i > 0 ==> s[i - 1] == '\n')
    requires !Text.BlankBetween(s, i, TextEnd(s, i))
    ensures FirstLine(s, i, TextEnd(s, i))
  {
    hide Text.IsSpace, Text.LineEnd, Text.TextEnd;
    var j, end := TextEnd(s, i), Text.LineEnd(s, i);
    LineEndsAt(s, i);
    TextEndsAt(s, i, end);
    var at :| i <= at < j && !Text.IsSpace(s[at]);
    assert s[i..j][at - i] == s[at];
    var k := if s[end - 1] == '\n' && j < end then end - 1 else end;
    assert IsEnding(s, j, k);
    assert forall m :: i <= m < j ==> s[m] != '\n';
    assert s[i..][..j - i] == s[i..j];
  }

  lemma RetitledIsHeaded(raw: string, from: string, to: string)
    ensures Headed(raw, from, to, Retitled(raw, from, to))
  {
    hide Text.IsSpace, SkipBlank, TextEnd, FirstLine, Text.BlankBetween;
    SkippedIsBlank(raw, 0);
    var i := SkipBlank(raw, 0);
    assert raw[0..i] == raw[..i];
    if i < |raw| {
      FirstLineAt(raw, i);
      NotBlankAt(raw, i, TextEnd(raw, i));
    } else {
      assert raw[..i] == raw;
    }
  }

  lemma NotBlankAt(s: string, i: nat, j: nat)
    requires FirstLine(s, i, j)
    ensures !Text.Blank(s)
  {
    hide Text.IsSpace;
    var at :| 0 <= at < j - i && !Text.IsSpace(s[i..j][at]);
    assert s[i..j][at] == s[i + at];
  }

  /** An edit is accepted exactly when it is allowed, and then writes every field it names
      and keeps every other. */
  lemma RevisionWrites(record: Record, edit: Edit, today: string)
    requires record.path.RecordFile? && record.meta.id.number < 1000
    ensures Revise(record, edit, today).Success? <==> EditAllowed(record, edit)
    ensures Revise(record, edit, today).Success? ==> EditWritten(record, edit, today, Revise(record, edit, today).value)
  {
    hide Retitled, Text.Trim, Kebab, Heading, Headed;
    if Revise(record, edit, today).Success? {
      var title := RevisedTitle(record.meta, edit).value;
      var id := record.meta.id;
      RetitledIsHeaded(NewBody(record, edit), Heading(id, record.meta.title), Heading(id, title));
    }
  }

  lemma OneFirstLine(s: string, i: nat, j: nat, m: nat, n: nat)
    requires FirstLine(s, i, j) && FirstLine(s, m, n)
    ensures i == m && j == n
  {
    hide Text.IsSpace;
    StartsNoLater(s, i, j, m, n);
    StartsNoLater(s, m, n, i, j);
    EndsNoLater(s, i, j, n);
    EndsNoLater(s, i, n, j);
  }

  lemma FirstLineIs(s: string, i: nat, j: nat) returns (at: nat)
    requires FirstLine(s, i, j)
    ensures i <= at < j && !Text.IsSpace(s[at])
    ensures forall q :: 0 <= q < i ==> Text.IsSpace(s[q])
    ensures forall q :: i <= q < j ==> s[q] != '\n'
  {
    hide Text.IsSpace;
    var k :| 0 <= k < j - i && !Text.IsSpace(s[i..j][k]);
    at := i + k;
    forall q | i <= q < j ensures s[q] != '\n' {
      assert s[i..j][q - i] == s[q];
    }
    forall q | 0 <= q < i ensures Text.IsSpace(s[q]) {
      assert s[..i][q] == s[q];
    }
  }

  lemma StartsNoLater(s: string, i: nat, j: nat, m: nat, n: nat)
    requires FirstLine(s, i, j) && FirstLine(s, m, n)
    ensures m <= i
  {
    var at := FirstLineIs(s, i, j);
    var _ := FirstLineIs(s, m, n);
    hide Text.IsSpace;
  }

  lemma EndsNoLater(s: string, i: nat, j: nat, n: nat)
    requires FirstLine(s, i, j) && FirstLine(s, i, n)
    ensures n <= j
  {
    var _ := FirstLineIs(s, i, n);
    hide Text.IsSpace;
    var k: int :| 0 <= k && IsEnding(s, j, k);
  }

  /** And nothing else is what the edit gives: the fields and the body determine the text. */
  lemma EditWrittenOnce(record: Record, edit: Edit, today: string, a: Content, b: Content)
    requires record.path.RecordFile? && record.meta.id.number < 1000
    requires EditWritten(record, edit, today, a) && EditWritten(record, edit, today, b)
    ensures a == b
  {
    hide Heading, Kebab, Text.Trim, Text.Blank;
    SlugOnce(record, edit, today, a.meta, b.meta);
    assert a.meta == b.meta;
    var sent := if edit.body.Some? then "\n" + edit.body.value + "\n" else record.body;
    if a.meta.title != record.meta.title && !Text.Blank(sent) {
      var i: nat, j: nat :| FirstLine(sent, i, j) && a.raw ==
        if sent[i..j] == Heading(record.meta.id, record.meta.title)
        then sent[..i] + Heading(record.meta.id, a.meta.title) + sent[j..] else sent;
      var m: nat, n: nat :| FirstLine(sent, m, n) && b.raw ==
        if sent[m..n] == Heading(record.meta.id, record.meta.title)
        then sent[..m] + Heading(record.meta.id, b.meta.title) + sent[n..] else sent;
      OneFirstLine(sent, i, j, m, n);
    }
  }

  lemma SlugOnce(record: Record, edit: Edit, today: string, a: Metadata, b: Metadata)
    requires record.path.RecordFile? && EditedMeta(record, edit, today, a) && EditedMeta(record, edit, today, b)
    ensures a == b
  {
    hide Kebab, Text.Trim, Restated;
  }

  /** When a verdict is accepted: of a revision the hypothesis has had, on a research record. */
  predicate VerdictAllowed(records: map<RecordId, Record>, record: Record, verdict: Verdict) {
    && record.meta.id.kind == Hypothesis
    && record.meta.revision.Some? && 1 <= verdict.revision <= record.meta.revision.value
    && verdict.research in records && verdict.research.kind == Research
  }

  /** The text a verdict gives: its entry after the earlier ones, with the note trimmed or
      left out when blank, and the status the table gives a verdict on the current revision. */
  predicate VerdictWritten(record: Record, verdict: Verdict, verdictStatus: map<string, string>,
                           today: string, text: Content)
  {
    && text.Document? && text.form == CANONICAL && text.raw == record.body
    && var before, after := record.meta, text.meta;
    && before.revision.Some?
    && |after.assessments| == |before.assessments| + 1
    && after.assessments[..|before.assessments|] == before.assessments
    && var entry := after.assessments[|before.assessments|];
    && entry.date == today && entry.research == verdict.research && entry.revision == verdict.revision
    && entry.verdict == verdict.verdict && entry.strength == verdict.strength
    && (entry.note == None <==> verdict.note == None || Text.Trim(verdict.note.value) == "")
    && (entry.note.Some? ==> entry.note.value == Text.Trim(verdict.note.value))
    && (verdict.revision == before.revision.value && before.status != "dropped" && verdict.verdict in verdictStatus ==>
          after.status == verdictStatus[verdict.verdict])
    && (verdict.revision != before.revision.value || before.status == "dropped" || verdict.verdict !in verdictStatus ==>
          after.status == before.status)
    && after.updated == today
    && after.(assessments := [], status := "", updated := "") == before.(assessments := [], status := "", updated := "")
  }

  /** A verdict is accepted exactly when it is allowed, and then moves the status exactly when
      it judges the current revision of a hypothesis not dropped and the table names it. */
  lemma VerdictWrites(records: map<RecordId, Record>, record: Record, verdict: Verdict,
                      verdictStatus: map<string, string>, today: string)
    ensures var text := Assess(records, record, verdict, verdictStatus, today);
            && (text.Success? <==> VerdictAllowed(records, record, verdict))
            && (text.Success? ==> VerdictWritten(record, verdict, verdictStatus, today, text.value))
  {
    hide Text.Trim;
  }

  // ---- Histories ------------------------------------------------------------

  datatype Change =
    | Revision(edit: Edit, today: string)
    | Judgement(records: map<RecordId, Record>, verdict: Verdict, verdictStatus: map<string, string>, today: string)

  function Apply(record: Record, change: Change): Result<Content>
    requires record.path.RecordFile? && record.meta.id.number < 1000
  {
    match change
    case Revision(edit, today) => Revise(record, edit, today)
    case Judgement(records, verdict, verdictStatus, today) => Assess(records, record, verdict, verdictStatus, today)
  }

  /** A record read from a file that decodes. */
  predicate FromFile(record: Record) {
    && record.path.RecordFile?
    && Decodes(record.path, record.blob)
    && record == RecordAt(record.path, record.blob)
  }

  /** Such a record whose assessments all judge a revision it has had. */
  predicate GoodRecord(record: Record) {
    && FromFile(record)
    && (record.meta.id.kind == Hypothesis ==> record.meta.revision.Some? && 1 <= record.meta.revision.value)
    && (forall a | a in record.meta.assessments ::
          record.meta.revision.Some? && 1 <= a.revision <= record.meta.revision.value)
  }

  /** `after` is `before` with one change made, read back from its file. */
  predicate Changed(before: Record, change: Change, after: Record) {
    && GoodRecord(before)
    && Apply(before, change).Success?
    && after == RecordAt(before.path, Apply(before, change).value)
  }

  /** The change gives a new title, or a body that differs beyond white space. */
  predicate Restates(before: Record, change: Change) {
    && change.Revision?
    && ((RevisedTitle(before.meta, change.edit).Success?
         && RevisedTitle(before.meta, change.edit).value != before.meta.title)
        || BodyChanged(before, change.edit))
  }

  /** How one change may move a record: it stays good, in place, under the same id
      and frozen slug. For a hypothesis, verdicts are only appended, and the revision
      rises by one exactly when the change restates it. */
  predicate Advances(before: Record, change: Change, after: Record) {
    && GoodRecord(before) && GoodRecord(after)
    && after.path == before.path && after.meta.id == before.meta.id
    && after.meta.derivedFrom == before.meta.derivedFrom && after.meta.created == before.meta.created
    && (before.meta.id.kind == Hypothesis ==>
          && before.meta.assessments <= after.meta.assessments
          && after.meta.revision.value == before.meta.revision.value + if Restates(before, change) then 1 else 0)
  }

  lemma RevisionAdvances(before: Record, change: Change, after: Record)
    requires Changed(before, change, after) && change.Revision?
    ensures Advances(before, change, after)
    ensures after.meta.assessments == before.meta.assessments
  {
    hide BodyChanged, NewBody, Retitled, Text.UnixLines, Text.Trim;
  }

  lemma JudgementAdvances(before: Record, change: Change, after: Record)
    requires Changed(before, change, after) && change.Judgement?
    ensures Advances(before, change, after)
    ensures |after.meta.assessments| == |before.meta.assessments| + 1
    ensures var entry, verdict := after.meta.assessments[|before.meta.assessments|], change.verdict;
            && entry.date == change.today && entry.research == verdict.research && entry.revision == verdict.revision
            && entry.verdict == verdict.verdict && entry.strength == verdict.strength
    ensures change.verdict.research in change.records && change.verdict.research.kind == Research
    ensures after.meta.title == before.meta.title && after.blob.raw == before.body
  {
    hide Text.UnixLines, Text.Trim;
  }

  lemma ChangeAdvances(before: Record, change: Change, after: Record)
    requires Changed(before, change, after)
    ensures Advances(before, change, after)
  {
    hide *;
    match change
    case Revision(_, _) => RevisionAdvances(before, change, after);
    case Judgement(_, _, _, _) => JudgementAdvances(before, change, after);
  }

  /** Verdicts move the status only from the current revision, and never out of `dropped`. */
  lemma JudgementAndStatus(before: Record, change: Change, after: Record)
    requires Changed(before, change, after) && change.Judgement?
    ensures change.verdict.revision != before.meta.revision.value ==> after.meta.status == before.meta.status
    ensures before.meta.status == DROPPED ==> after.meta.status == DROPPED
    ensures after.meta.status != before.meta.status ==>
              change.verdict.verdict in change.verdictStatus
              && after.meta.status == change.verdictStatus[change.verdict.verdict]
  {
    hide Text.UnixLines, Text.Trim;
  }

  /** And a verdict on the current revision of a hypothesis that is not dropped does move it,
      to what the table gives. */
  lemma JudgementMovesStatus(before: Record, change: Change, after: Record)
    requires Changed(before, change, after) && change.Judgement?
    ensures var verdict := change.verdict;
            after.meta.status ==
            if verdict.revision == before.meta.revision.value && before.meta.status != "dropped"
               && verdict.verdict in change.verdictStatus
            then change.verdictStatus[verdict.verdict] else before.meta.status
    ensures VerdictWritten(before, change.verdict, change.verdictStatus, change.today, after.blob)
  {
    hide Text.UnixLines, Text.Trim, Assess, VerdictWritten;
    VerdictWrites(change.records, before, change.verdict, change.verdictStatus, change.today);
    assert VerdictWritten(before, change.verdict, change.verdictStatus, change.today, after.blob);
    hide GoodRecord, Changed;
    StatusIs(before, change.verdict, change.verdictStatus, change.today, after.blob);
  }

  lemma StatusIs(record: Record, verdict: Verdict, verdictStatus: map<string, string>, today: string, text: Content)
    requires VerdictWritten(record, verdict, verdictStatus, today, text)
    ensures text.Document? && record.meta.revision.Some?
    ensures text.meta.status ==
            if verdict.revision == record.meta.revision.value && record.meta.status != "dropped"
               && verdict.verdict in verdictStatus
            then verdictStatus[verdict.verdict] else record.meta.status
  {
  }

  /** Every revision read back from its file holds what its edit names, and else what was there. */
  lemma ChangeWritesEdit(before: Record, change: Change, after: Record)
    requires Changed(before, change, after) && change.Revision?
    ensures EditedMeta(before, change.edit, change.today, after.meta)
    ensures EditWritten(before, change.edit, change.today, after.blob)
  {
    hide Revise, EditedMeta, Headed, Heading, SlugAgrees, ValidSlug, Text.UnixLines;
    RevisionWrites(before, change.edit, change.today);
  }

  /** Restating reopens a hypothesis unless the edit names a status or it was dropped. */
  lemma RevisionAndStatus(before: Record, change: Change, after: Record)
    requires Changed(before, change, after) && change.Revision? && before.meta.id.kind == Hypothesis
    requires change.edit.status.None?
    ensures after.meta.status ==
            if !Restates(before, change) then before.meta.status
            else if before.meta.status == DROPPED then DROPPED else OPEN
  {
    hide BodyChanged, NewBody, Retitled, Text.UnixLines, Text.Trim;
  }

  /** An edit that names nothing changes only the date, whatever the record is. */
  lemma EmptyEditKeeps(before: Record, change: Change, after: Record)
    requires Changed(before, change, after)
    requires change == Revision(Edit(None, None, None, None, None, None, None), change.today)
    ensures after.meta == before.meta.(updated := change.today) && after.blob.raw == before.body
  {
    hide Text.UnixLines, Text.Trim, Retitled;
  }

  // ---- Whether the revision tells the statement -----------------------------

  predicate SameStatement(a: Record, b: Record) {
    a.meta.title == b.meta.title && Text.Trim(a.body) == Text.Trim(b.body)
  }

  /** Line endings are compared as written but stored converted. This says when that makes
      no difference: to a body of plain newlines, or one that was not already the statement
      in either form. */
  predicate LinesAgree(before: Record, edit: Edit) {
    var statement := Text.Trim(before.body);
    match edit.body
    case None => !Text.HasCrlf(statement)
    case Some(body) =>
      || !Text.HasCrlf(Text.Trim(body))
      || (statement != Text.Trim(body) && statement != Text.UnixLines(Text.Trim(body)))
  }

  /** Whether the revision rises is whether the statement read back differs, exactly when
      the title changes or the line endings agree. */
  lemma RevisionTellsStatement(before: Record, change: Change, after: Record)
    requires Changed(before, change, after) && change.Revision?
    ensures (Restates(before, change) <==> !SameStatement(before, after))
       <==> (RevisedTitle(before.meta, change.edit) != Success(before.meta.title) || LinesAgree(before, change.edit))
  {
    hide Text.UnixLines, Text.Trim, Retitled, Text.HasCrlf;
    var title := RevisedTitle(before.meta, change.edit).value;
    assert after.meta.title == title;
    if title == before.meta.title {
      var raw := NewBody(before, change.edit);
      assert after.body == Text.UnixLines(raw);
      NewBodyTrims(before, change.edit);
      Text.TrimOfUnixLines(raw);
      Text.UnixLinesChanges(Text.Trim(raw));
    }
  }

  lemma NewBodyTrims(record: Record, edit: Edit)
    ensures Text.Trim(NewBody(record, edit)) == Text.Trim(if edit.body.Some? then edit.body.value else record.body)
  {
    if edit.body.Some? {
      Text.TrimOfPadded("\n", edit.body.value, "\n");
    }
  }

  /** So a statement sent back unchanged but with carriage returns is a new revision,
      although the record reads back the same. */
  lemma CarriageReturnsRestate(before: Record, change: Change, after: Record)
    requires Changed(before, change, after) && change.Revision? && before.meta.id.kind == Hypothesis
    requires change.edit.title.None? && change.edit.body.Some? && Text.HasCrlf(Text.Trim(change.edit.body.value))
    requires Text.Trim(before.body) == Text.UnixLines(Text.Trim(change.edit.body.value))
    ensures after.meta.revision.value == before.meta.revision.value + 1
    ensures SameStatement(before, after)
  {
    hide Text.UnixLines, Text.Trim, Text.HasCrlf, Changed, GoodRecord;
    Text.UnixLinesChanges(Text.Trim(change.edit.body.value));
    RevisionAdvances(before, change, after);
    RevisionTellsStatement(before, change, after);
    TitleStays(before, change, after);
  }

  lemma TitleStays(before: Record, change: Change, after: Record)
    requires Changed(before, change, after) && change.Revision? && change.edit.title.None?
    ensures after.meta.title == before.meta.title
  {
    hide BodyChanged, NewBody, Retitled, Text.UnixLines, Text.Trim;
  }

  // ---- Revising again -------------------------------------------------------

  /** The edit leaves what it would write again: a kept body has no carriage returns left,
      and a given body does not open with the heading that the new title replaces. */
  predicate Settles(record: Record, edit: Edit, today: string)
    requires record.path.RecordFile? && record.meta.id.number < 1000 && Revise(record, edit, today).Success?
  {
    var raw := RevisedRaw(record, edit, RevisedTitle(record.meta, edit).value);
    if edit.body.None? then !Text.HasCrlf(raw) else raw == NewBody(record, edit)
  }

  /** The same edit of the research record it produced, on whatever day, gives the same bytes
      exactly when it settles and the day is the same: a revision writes its date. */
  lemma RevisingAgain(record: Record, edit: Edit, today: string, later: string)
    requires FromFile(record) && record.meta.id.kind == Research && Revise(record, edit, today).Success?
    ensures var text := Revise(record, edit, today).value;
            && text.Document? && text.meta.id == record.meta.id
            && var again := RecordAt(record.path, text);
            && Revise(again, edit, later).Success?
            && (Revise(again, edit, later).value == text <==> Settles(record, edit, today) && later == today)
  {
    hide Retitled, Text.UnixLines, Text.HasCrlf, Text.TrimFront, Text.TrimBack;
    hide Kebab, Heading, ValidSlug, SlugAgrees, BodyChanged;
    var text := Revise(record, edit, today).value;
    var title := RevisedTitle(record.meta, edit).value;
    var again := RecordAt(record.path, text);
    var meta := Edited(Retitle(record.meta, record.path.slug, title), edit, today);
    assert text == Rendered(meta, RevisedRaw(record, edit, title));
    EditingAgain(record.meta, record.path.slug, edit, today, later);
    assert Revise(again, edit, later).value == Rendered(text.meta.(updated := later), NewBody(again, edit));
    Text.UnixLinesChanges(text.raw);
  }

  /** An edit that renames the record and sends a body opening with the old heading does not
      settle: the heading sent is replaced each time, so the bytes are never those sent. */
  lemma OldHeadingUnsettles(record: Record, edit: Edit, today: string, rest: string)
    requires record.path.RecordFile? && record.meta.id.number < 1000 && Revise(record, edit, today).Success?
    requires RevisedTitle(record.meta, edit) != Success(record.meta.title) && OneLineTitle(record.meta.title)
    requires edit.body == Some(Heading(record.meta.id, record.meta.title) + "\n" + rest)
    ensures !Settles(record, edit, today)
  {
    hide Retitled, Text.Trim, Kebab, BodyChanged;
    var id, title, next := record.meta.id, record.meta.title, RevisedTitle(record.meta, edit).value;
    HeadingFollowsTitle(id, title, next, rest + "\n");
    assert NewBody(record, edit) == "\n" + Heading(id, title) + "\n" + (rest + "\n");
    HeadingsDiffer(id, title, next, "\n" + (rest + "\n"));
    assert "\n" + (Heading(id, title) + ("\n" + (rest + "\n"))) == "\n" + Heading(id, title) + "\n" + (rest + "\n");
    assert "\n" + (Heading(id, next) + ("\n" + (rest + "\n"))) == "\n" + Heading(id, next) + "\n" + (rest + "\n");
  }

  lemma HeadingsDiffer(id: RecordId, a: string, b: string, rest: string)
    requires id.number < 1000 && a != b
    ensures "\n" + (Heading(id, a) + rest) != "\n" + (Heading(id, b) + rest)
  {
    var front := "# " + IdText(id) + " \U{2014} ";
    var s, t := "\n" + (Heading(id, a) + rest), "\n" + (Heading(id, b) + rest);
    if |a| == |b| {
      assert s[1 + |front|..1 + |front| + |a|] == a && t[1 + |front|..1 + |front| + |b|] == b;
    } else {
      assert |s| != |t|;
    }
  }

  lemma EditingAgain(meta: Metadata, slug: string, edit: Edit, today: string, later: string)
    requires RevisedTitle(meta, edit).Success?
    ensures var title := RevisedTitle(meta, edit).value;
            var once := Edited(Retitle(meta, slug, title), edit, today);
            && RevisedTitle(once, edit) == Success(once.title)
            && Retitle(once, slug, once.title) == once
            && Edited(once, edit, later) == once.(updated := later)
  {
    hide Text.Trim, Kebab;
    if edit.title.Some? {
      Text.TrimIsTrimmed(edit.title.value);
    }
  }

  // ---- Runs of changes ------------------------------------------------------

  /** Successive states of one record. */
  predicate IsHistory(states: seq<Record>, changes: seq<Change>) {
    && |states| == |changes| + 1
    && GoodRecord(states[0])
    && forall i :: 0 <= i < |changes| ==> Changed(states[i], changes[i], states[i + 1])
  }

  /** How many of a run's first `n` changes restate the record. */
  function Restatements(states: seq<Record>, changes: seq<Change>, n: nat): nat
    requires n <= |changes| <= |states|
  {
    if n == 0 then 0
    else Restatements(states, changes, n - 1) + if Restates(states[n - 1], changes[n - 1]) then 1 else 0
  }

  /** Over any run of revisions and assessments, a record keeps its path and id, still
      decodes under the slug frozen when it was created, and only gains verdicts, each
      judging a revision between 1 and the current one; a hypothesis's revision counts
      exactly the changes that restate it. */
  lemma {:induction false} HistoryIsAppendOnly(states: seq<Record>, changes: seq<Change>, i: nat, j: nat)
    requires IsHistory(states, changes) && i <= j < |states|
    ensures GoodRecord(states[i]) && GoodRecord(states[j])
    ensures states[j].path == states[i].path && states[j].meta.id == states[i].meta.id
    ensures states[i].meta.id.kind == Hypothesis ==>
              && states[i].meta.assessments <= states[j].meta.assessments
              && states[j].meta.revision.value - states[i].meta.revision.value
                 == Restatements(states, changes, j) - Restatements(states, changes, i)
  {
    hide Changed, Restates, FromFile;
    if i < j {
      HistoryIsAppendOnly(states, changes, i, j - 1);
      ChangeAdvances(states[j - 1], changes[j - 1], states[j]);
    } else if 0 < j {
      ChangeAdvances(states[j - 1], changes[j - 1], states[j]);
    }
  }
}
