/** Worktree mode (`worktree.rs`): an agent's uncommitted write of the one research record
    its run reserved, under that record's expected bytes. */
module Worktree {
  import opened Basics
  import opened Naming
  import opened Records
  import opened Lifecycle
  import opened Writer
  import opened Planning
  import opened Validation
  import Scaffold

  /** `bound` is the content of the `orbit-research-reserved` file. */
  datatype State = State(head: Tree, work: Tree, bound: Option<RecordId>)

  datatype Answer =
    | Written(id: RecordId, path: Path, blob: Content, files: seq<Path>, changed: bool)
    | Declined(error: Error)
    | Interrupted

  /** What a call asks, with the UTC date it reads when it runs. */
  datatype Order = Order(id: RecordId, blob: Content, edit: Edit, today: string)

  // ---- What a call may do ---------------------------------------------------

  predicate Stub(records: map<RecordId, Record>, id: RecordId) {
    && id in records && id.kind == Research
    && (records[id].meta.status == "planned" || records[id].meta.status == "running")
  }

  /** The edit renders, and the corpus with it is well formed. */
  ghost predicate EditOk(records: map<RecordId, Record>, record: Record, order: Order) {
    && record.path.RecordFile? && record.meta.id.number < 1000
    && var text := Lifecycle.Revise(record, order.edit, order.today);
       && text.Success?
       && text.value.Document?
       && WellFormed(records[order.id := RecordAt(record.path, text.value)])
  }

  /** HEAD reserves the record, no other is bound, and the edit gives a valid corpus. */
  ghost predicate Editable(s: State, order: Order) {
    && Sound(s.head) && Stub(RecordsOf(s.head), order.id)
    && (s.bound.None? || s.bound.value == order.id)
    && Sound(s.work) && order.id in RecordsOf(s.work)
    && RecordsOf(s.work)[order.id].path == RecordsOf(s.head)[order.id].path
    && EditOk(RecordsOf(s.work), RecordsOf(s.work)[order.id], order)
  }

  /** The record's new text, and its manifest when the edit replaces it. */
  function FilesFor(record: Record, order: Order): (files: seq<WriteFile>)
    requires record.path.RecordFile? && record.meta.id.number < 1000
    requires Lifecycle.Revise(record, order.edit, order.today).Success?
  {
    [WriteFile(record.path, Lifecycle.Revise(record, order.edit, order.today).value, None)] +
    match order.edit.manifest
    case None => []
    case Some(text) => [WriteFile(Manifest(record.path.id, record.path.slug), Plain(text), None)]
  }

  predicate Applied(work: Tree, files: seq<WriteFile>) {
    forall file | file in files :: Has(work, file)
  }

  function Paths(files: seq<WriteFile>): seq<Path> {
    seq(|files|, i requires 0 <= i < |files| => files[i].path)
  }

  /** The edit is allowed, and either the bytes are the expected ones or the write is in place. */
  ghost predicate Allowed(s: State, order: Order) {
    && Editable(s, order)
    && var record := RecordsOf(s.work)[order.id];
    record.blob == order.blob || Applied(s.work, FilesFor(record, order))
  }

  /** What one call does: nothing when refused; else it writes its files in order, only over
      the expected bytes, and binds the worktree only once they are all in place. */
  ghost predicate Handled(s: State, order: Order, answer: Answer, t: State) {
    && (answer.Declined? <==> !Allowed(s, order))
    && (answer.Declined? ==> t == s)
    && t.head == s.head
    && (Allowed(s, order) ==>
          var record := RecordsOf(s.work)[order.id];
          var files := FilesFor(record, order);
          && (t.work == s.work
              || (record.blob == order.blob && exists n: nat :: n <= |files| && t.work == Overlay(s.work, files[..n])))
          && (t.bound == s.bound || (t.bound == Some(order.id) && Applied(t.work, files)))
          && (answer.Written? ==>
                && t.bound == Some(order.id) && Applied(t.work, files)
                && answer == Written(order.id, record.path, files[0].text, Paths(files),
                                     record.blob != order.blob || !Applied(s.work, files))))
  }

  // ---- What a call writes, path by path -------------------------------------

  /** The record, as the edit gives it, or its manifest, as the edit has it. */
  ghost predicate MayWrite(record: Record, order: Order, path: Path, content: Content) {
    && record.path.RecordFile? && record.meta.id.number < 1000
    && ((path == record.path && EditWritten(record, order.edit, order.today, content))
        || (path == Beside(record) && order.edit.manifest.Some? && content == Plain(order.edit.manifest.value)))
  }

  /** The manifest beside a record. */
  function Beside(record: Record): Path
    requires record.path.RecordFile?
  {
    Manifest(record.path.id, record.path.slug)
  }

  /** The record is as the edit gives it, its manifest is the edit's if it has one, no other
      file moved, and the answer says just that. */
  ghost predicate Completes(s: State, order: Order, answer: Answer, t: State)
    requires Readable(s.work) && order.id in RecordsOf(s.work) && answer.Written?
  {
    var record := RecordsOf(s.work)[order.id];
    && record.path.RecordFile? && record.meta.id.number < 1000
    && record.path in t.work && EditWritten(record, order.edit, order.today, t.work[record.path])
    && (order.edit.manifest.Some? ==>
          Beside(record) in t.work && t.work[Beside(record)] == Plain(order.edit.manifest.value))
    && (order.edit.manifest.None? ==> Same(t.work, s.work, Beside(record)))
    && (forall path | path != record.path && path != Beside(record) :: Same(t.work, s.work, path))
    && answer.id == order.id && answer.path == record.path && answer.blob == t.work[record.path]
    && answer.files == [record.path] + (if order.edit.manifest.Some? then [Beside(record)] else [])
    && (answer.changed <==> record.blob != order.blob || t.work != s.work)
    && t.bound == Some(order.id) && t.head == s.head
  }

  lemma FilesAre(record: Record, order: Order)
    requires record.path.RecordFile? && record.meta.id.number < 1000
    requires Lifecycle.Revise(record, order.edit, order.today).Success?
    ensures var files := FilesFor(record, order);
            && 1 <= |files| == (if order.edit.manifest.Some? then 2 else 1)
            && files[0].path == record.path && EditWritten(record, order.edit, order.today, files[0].text)
            && (order.edit.manifest.Some? ==>
                  files[1].path == Beside(record) && files[1].text == Plain(order.edit.manifest.value))
  {
    hide Lifecycle.Revise, EditWritten;
    RevisionWrites(record, order.edit, order.today);
  }

  lemma WrittenCompletes(s: State, order: Order, answer: Answer, t: State)
    requires Handled(s, order, answer, t) && answer.Written?
    ensures Readable(s.work) && order.id in RecordsOf(s.work) && Completes(s, order, answer, t)
  {
    hide RecordsOf, WellFormed, Lifecycle.Revise, Overlay, Readable, EditWritten;
    var record := RecordsOf(s.work)[order.id];
    RecordInItsFile(s.work, order.id);
    var files := FilesFor(record, order);
    FilesAre(record, order);
    FilesAreDistinct(record, order);
    assert files[0] in files && (order.edit.manifest.Some? ==> files[1] in files);
    if t.work != s.work {
      var n: nat :| n <= |files| && t.work == Overlay(s.work, files[..n]);
      FirstFilesAreDistinct(files, n);
      forall path | path != record.path && path != Beside(record) ensures Same(t.work, s.work, path) {
        OverlayAt(s.work, files[..n], path);
      }
      OverlayAt(s.work, files[..n], Beside(record));
      if Applied(s.work, files) {
        AppliedStays(s.work, files, n);
      }
    }
  }

  /** A call is allowed exactly when HEAD reserves the record, no other is bound, the worktree
      holds it at the same path, the edit is allowed and gives a sound corpus, and the record
      holds either the expected bytes or, with its manifest, just what the edit gives today. */
  lemma AllowedIff(s: State, order: Order)
    ensures Allowed(s, order) <==>
            && Sound(s.head) && Sound(s.work)
            && order.id in RecordsOf(s.head) && order.id.kind == Research
            && RecordsOf(s.head)[order.id].meta.status in {"planned", "running"}
            && (s.bound == None || s.bound == Some(order.id))
            && order.id in RecordsOf(s.work) && RecordsOf(s.work)[order.id].path == RecordsOf(s.head)[order.id].path
            && var record := RecordsOf(s.work)[order.id];
            && record.path.RecordFile? && record.meta.id.number < 1000
            && EditAllowed(record, order.edit) && GivesSound(RecordsOf(s.work), record, order)
            && (record.blob == order.blob || InPlace(s.work, record, order))
  {
    hide RecordsOf, WellFormed, Lifecycle.Revise, Readable, EditWritten, EditAllowed, Decodes;
    if Sound(s.work) && order.id in RecordsOf(s.work) {
      var record := RecordsOf(s.work)[order.id];
      RecordInItsFile(s.work, order.id);
      RevisionWrites(record, order.edit, order.today);
      if EditAllowed(record, order.edit) {
        AppliedIff(s.work, record, order);
        GivesSoundIff(RecordsOf(s.work), record, order);
      }
    }
  }

  /** The corpus with what the edit gives is well formed. */
  ghost predicate GivesSound(records: map<RecordId, Record>, record: Record, order: Order)
    requires record.path.RecordFile? && record.meta.id.number < 1000
  {
    exists text: Content ::
      EditWritten(record, order.edit, order.today, text) && WellFormed(records[order.id := RecordAt(record.path, text)])
  }

  /** The edit would write what is there already. */
  ghost predicate InPlace(work: Tree, record: Record, order: Order)
    requires record.path.RecordFile? && record.meta.id.number < 1000
  {
    && EditWritten(record, order.edit, order.today, record.blob)
    && (order.edit.manifest.Some? ==>
          Beside(record) in work && work[Beside(record)] == Plain(order.edit.manifest.value))
  }

  lemma AppliedIff(work: Tree, record: Record, order: Order)
    requires record.path.RecordFile? && record.meta.id.number < 1000
    requires record.path in work && work[record.path] == record.blob
    requires Lifecycle.Revise(record, order.edit, order.today).Success?
    ensures Applied(work, FilesFor(record, order)) <==> InPlace(work, record, order)
  {
    hide Lifecycle.Revise, EditWritten, FilesFor;
    FilesAre(record, order);
    var files := FilesFor(record, order);
    assert files[0] in files && (order.edit.manifest.Some? ==> files[1] in files);
    if InPlace(work, record, order) {
      EditWrittenOnce(record, order.edit, order.today, record.blob, files[0].text);
    }
  }

  lemma GivesSoundIff(records: map<RecordId, Record>, record: Record, order: Order)
    requires record.path.RecordFile? && record.meta.id.number < 1000
    requires Lifecycle.Revise(record, order.edit, order.today).Success?
    ensures EditOk(records, record, order) <==> GivesSound(records, record, order)
  {
    hide Lifecycle.Revise, EditWritten, WellFormed;
    RevisionWrites(record, order.edit, order.today);
    var text := Lifecycle.Revise(record, order.edit, order.today).value;
    IsDocument(record, order, text);
    forall other: Content | EditWritten(record, order.edit, order.today, other) ensures other == text {
      EditWrittenOnce(record, order.edit, order.today, other, text);
    }
  }

  lemma IsDocument(record: Record, order: Order, text: Content)
    requires record.path.RecordFile? && record.meta.id.number < 1000
    ensures EditWritten(record, order.edit, order.today, text) ==> text.Document?
  {
    hide EditedMeta, Headed;
  }

  lemma AppliedStays(work: Tree, files: seq<WriteFile>, n: nat)
    requires DistinctPaths(files) && n <= |files| && Applied(work, files)
    ensures Overlay(work, files[..n]) == work
  {
    forall file | file in files[..n] ensures Has(work, file) {
      assert file in files;
    }
    FirstFilesAreDistinct(files, n);
    OverlayIs(work, files[..n], work);
  }

  /** A research record as a reservation writes it is a stub a run may fill. */
  lemma ReservationIsStub(tree: Tree, path: Path, title: string, body: string, tags: seq<string>,
                          derivedFrom: seq<RecordId>, today: string)
    requires Readable(tree) && path in tree && path.RecordFile? && path.id.kind == Research
    requires path.id.number < 1000
    requires Scaffold.StartsAs(path.id, path.slug, title, body, tags, derivedFrom, today, tree[path])
    ensures Stub(RecordsOf(tree), path.id)
  {
    hide Scaffold.Appended, Scaffold.FirstSection, IdText, Kebab, RecordsOf, Readable, Scaffold.LaterSections;
    RecordsAre(tree);
    assert RecordsOf(tree)[path.id].meta.(slug := None).status == "planned";
  }

  // ---- The call -------------------------------------------------------------

  lemma FilesAreDistinct(record: Record, order: Order)
    requires record.path.RecordFile? && record.meta.id.number < 1000
    requires Lifecycle.Revise(record, order.edit, order.today).Success?
    ensures DistinctPaths(FilesFor(record, order))
  {
    hide Lifecycle.Revise;
  }

  class RunWorktree {
    var head: Tree
    var work: Tree
    var bound: Option<RecordId>

    /** Whether the process may be killed during a call. */
    const killable: bool

    method Dies() returns (killed: bool)
      ensures killed ==> killable
    {
      killed := *;
      killed := killed && killable;
    }

    ghost function Contents(): State
      reads this
    {
      State(head, work, bound)
    }

    /** `write_reserved`, under the worktree's lock. */
    method WriteReserved(order: Order) returns (answer: Answer)
      modifies this`work, this`bound
      ensures Handled(old(Contents()), order, answer, Contents())
      ensures answer.Written? ==>
                && Readable(old(work)) && order.id in RecordsOf(old(work))
                && Completes(old(Contents()), order, answer, Contents())
      ensures !killable ==> !answer.Interrupted?
    {
      hide WellFormed, Readable, RecordsOf, Overlay, Lifecycle.Revise, Has, Completes, EditWritten;
      var plan := PlanWrite(order);
      if plan.Failure? {
        return Declined(plan.error);
      }
      var record := plan.value;
      var files := FilesFor(record, order);
      FilesAreDistinct(record, order);
      ghost var before := work;
      var inPlace := Applied(work, files);
      if record.blob != order.blob {
        if !inPlace {
          return Declined(Conflict);
        }
      } else {
        var cut := WriteAll(files);
        if cut {
          return Interrupted;
        }
        OverlayHas(before, files);
        assert files[..|files|] == files;
      }
      if bound.None? {
        bound := Some(order.id);
        var cut := Dies();
        if cut {
          return Interrupted;
        }
      }
      answer := Written(order.id, record.path, files[0].text, Paths(files), record.blob != order.blob || !inPlace);
      WrittenCompletes(old(Contents()), order, answer, Contents());
    }

    method WriteAll(files: seq<WriteFile>) returns (cut: bool)
      requires DistinctPaths(files)
      modifies this`work
      ensures exists n: nat :: n <= |files| && work == Overlay(old(work), files[..n])
      ensures !cut ==> work == Overlay(old(work), files)
      ensures !killable ==> !cut
    {
      hide Overlay;
      OverlayNothing(work, files);
      for i := 0 to |files|
        invariant work == Overlay(old(work), files[..i])
      {
        WriteNext(old(work), files, i);
        work := work[files[i].path := files[i].text];
        cut := Dies();
        if cut {
          assert work == Overlay(old(work), files[..i + 1]);
          return true;
        }
      }
      assert files[..|files|] == files;
      return false;
    }

    /** The record to edit, when the edit is allowed. */
    method PlanWrite(order: Order) returns (plan: Result<Record>)
      ensures plan.Success? <==> Editable(Contents(), order)
      ensures plan.Success? ==> plan.value == RecordsOf(work)[order.id]
    {
      hide WellFormed, Readable, RecordsOf, Lifecycle.Revise, Decodes;
      var ok := TreeIsSound(head);
      if !ok {
        return Failure(Invalid);
      }
      if !Stub(RecordsOf(head), order.id) || (bound.Some? && bound.value != order.id) {
        return Failure(Refused);
      }
      ok := TreeIsSound(work);
      if !ok {
        return Failure(Invalid);
      }
      var records := RecordsOf(work);
      if order.id !in records || records[order.id].path != RecordsOf(head)[order.id].path {
        return Failure(Invalid);
      }
      var record := records[order.id];
      RecordInItsFile(work, order.id);
      var text := Lifecycle.Revise(record, order.edit, order.today);
      if text.Failure? {
        return Failure(text.error);
      }
      ReviseDecodes(record, order.edit, order.today);
      var changed := ReadBack(record.path, text.value);
      var issues := ValidateRecords(records[order.id := changed]);
      if issues != [] {
        return Failure(Invalid);
      }
      return Success(record);
    }
  }

  // ---- Runs -----------------------------------------------------------------

  /** Between calls anyone may commit or edit; only calls touch the binding. */
  datatype Event = Elsewhere | Called(order: Order, answer: Answer)

  ghost predicate Step(s: State, event: Event, t: State) {
    match event
    case Elsewhere => t.bound == s.bound
    case Called(order, answer) => Handled(s, order, answer, t)
  }

  ghost predicate IsRun(states: seq<State>, events: seq<Event>) {
    && |states| == |events| + 1
    && forall i :: 0 <= i < |events| ==> Step(states[i], events[i], states[i + 1])
  }

  lemma StepKeepsBinding(s: State, event: Event, t: State)
    requires Step(s, event, t)
    ensures s.bound.Some? ==> t.bound == s.bound
    ensures event.Called? && event.answer.Written? ==>
              t.bound == Some(event.order.id) && event.answer.id == event.order.id
  {
    hide Sound, RecordsOf, WellFormed, Lifecycle.Revise, Overlay;
  }

  lemma {:induction false} BindingStays(states: seq<State>, events: seq<Event>, i: nat, j: nat)
    requires IsRun(states, events) && i <= j < |states| && states[i].bound.Some?
    ensures states[j].bound == states[i].bound
  {
    hide Step;
    if i < j {
      BindingStays(states, events, i, j - 1);
      StepKeepsBinding(states[j - 1], events[j - 1], states[j]);
    }
  }

  /** All writes that complete in one worktree, over any run, are of one record. */
  lemma OneRecordPerWorktree(states: seq<State>, events: seq<Event>, i: nat, j: nat)
    requires IsRun(states, events) && i <= j < |events|
    requires events[i].Called? && events[i].answer.Written? && events[j].Called? && events[j].answer.Written?
    ensures events[i].answer.id == events[j].answer.id
  {
    hide Step;
    StepKeepsBinding(states[i], events[i], states[i + 1]);
    StepKeepsBinding(states[j], events[j], states[j + 1]);
    BindingStays(states, events, i + 1, j + 1);
  }

  /** A call changes a file only when the record held exactly the expected bytes, and then
      only the record itself or its manifest. */
  lemma ChangesOverExpectedBytes(s: State, order: Order, answer: Answer, t: State, path: Path)
    requires Handled(s, order, answer, t) && !Same(t.work, s.work, path)
    ensures Editable(s, order)
    ensures var record := RecordsOf(s.work)[order.id];
            && record.path in s.work && s.work[record.path] == order.blob
            && path in t.work && MayWrite(record, order, path, t.work[path])
  {
    hide RecordsOf, WellFormed, Lifecycle.Revise, Overlay, Readable, EditWritten;
    var record := RecordsOf(s.work)[order.id];
    RecordInItsFile(s.work, order.id);
    var files := FilesFor(record, order);
    FilesAre(record, order);
    FilesAreDistinct(record, order);
    var n: nat :| n <= |files| && t.work == Overlay(s.work, files[..n]);
    FirstFilesAreDistinct(files, n);
    OverlayAt(s.work, files[..n], path);
    var i :| 0 <= i < n && files[..n][i].path == path;
  }

  lemma FirstFilesAreDistinct(files: seq<WriteFile>, n: nat)
    requires DistinctPaths(files) && n <= |files|
    ensures DistinctPaths(files[..n])
  {
  }

  /** The binding is the last step: a call cut short after its last file leaves the worktree
      free to be bound to another record. */
  lemma CutShortLeavesUnbound(s: State, order: Order) returns (t: State)
    requires Editable(s, order) && s.bound.None? && RecordsOf(s.work)[order.id].blob == order.blob
    ensures Handled(s, order, Interrupted, t) && t.bound.None?
    ensures Applied(t.work, FilesFor(RecordsOf(s.work)[order.id], order))
  {
    hide RecordsOf, WellFormed, Lifecycle.Revise, Overlay, Readable, Has;
    var files := FilesFor(RecordsOf(s.work)[order.id], order);
    FilesAreDistinct(RecordsOf(s.work)[order.id], order);
    OverlayHas(s.work, files);
    assert files[..|files|] == files;
    t := s.(work := Overlay(s.work, files));
  }

  // ---- Retries --------------------------------------------------------------

  /** After a write that changed the record, the identical retry, on whatever day it runs, is
      accepted exactly when every file was written, the edit settles, and the UTC date is
      still that of the write. */
  lemma RetryIsAdopted(s: State, order: Order, answer: Answer, t: State, day: string)
    requires Handled(s, order, answer, t) && t.work != s.work && Editable(s, order)
    requires FilesFor(RecordsOf(s.work)[order.id], order)[0].text != order.blob
    ensures var record := RecordsOf(s.work)[order.id];
            Allowed(t, order.(today := day)) <==>
            && Applied(t.work, FilesFor(record, order)) && Settles(record, order.edit, order.today)
            && day == order.today
  {
    hide RecordsOf, WellFormed, Lifecycle.Revise, Overlay, Readable, Decodes, Settles;
    var record := RecordsOf(s.work)[order.id];
    RecordInItsFile(s.work, order.id);
    var text := Lifecycle.Revise(record, order.edit, order.today).value;
    var files := FilesFor(record, order);
    WrittenIsSound(s, order, t);
    RevisingAgain(record, order.edit, order.today, day);
    var again, retry := RecordAt(record.path, text), order.(today := day);
    assert RecordsOf(t.work)[order.id] == again;
    if Settles(record, order.edit, order.today) && day == order.today {
      assert FilesFor(again, retry) == files;
      assert RecordsOf(s.work)[order.id := again][order.id := again] == RecordsOf(s.work)[order.id := again];
    } else {
      assert FilesFor(again, retry)[0].text != text;
      assert FilesFor(again, retry)[0] in FilesFor(again, retry);
    }
  }

  /** So an answered write is refused to its identical retry from the next day on, whatever
      the edit: any allowed edit that changes the record is such a write. */
  lemma RetryOnAnotherDayIsRefused(s: State, order: Order, day: string) returns (t: State, answer: Answer)
    requires Editable(s, order) && RecordsOf(s.work)[order.id].blob == order.blob && day != order.today
    requires FilesFor(RecordsOf(s.work)[order.id], order)[0].text != order.blob
    ensures Handled(s, order, answer, t) && answer.Written? && answer.changed
    ensures !Allowed(t, order.(today := day))
  {
    hide RecordsOf, WellFormed, Lifecycle.Revise, Overlay, Readable, Decodes, Settles, Has;
    var record := RecordsOf(s.work)[order.id];
    var files := FilesFor(record, order);
    RecordInItsFile(s.work, order.id);
    FilesAreDistinct(record, order);
    OverlayHas(s.work, files);
    assert files[..|files|] == files && files[0] in files;
    t := s.(work := Overlay(s.work, files), bound := Some(order.id));
    NotYetWritten(s.work, record, files);
    answer := Written(order.id, record.path, files[0].text, Paths(files), true);
    RetryIsAdopted(s, order, answer, t, day);
  }

  lemma NotYetWritten(work: Tree, record: Record, files: seq<WriteFile>)
    requires record.path in work && work[record.path] == record.blob && DistinctPaths(files)
    requires files != [] && files[0].path == record.path && files[0].text != record.blob
    ensures !Applied(work, files) && Overlay(work, files) != work
  {
    hide Overlay;
    OverlayHas(work, files);
    assert files[0] in files && !Has(work, files[0]);
  }

  /** Such a call does occur: any allowed edit that changes the record and brings a manifest
      not yet in place can be cut short between the two, and its retry is then refused. */
  lemma CutBetweenFilesIsRefused(s: State, order: Order) returns (t: State)
    requires Editable(s, order) && RecordsOf(s.work)[order.id].blob == order.blob && order.edit.manifest.Some?
    requires FilesFor(RecordsOf(s.work)[order.id], order)[0].text != order.blob
    requires !Has(s.work, FilesFor(RecordsOf(s.work)[order.id], order)[1])
    ensures Handled(s, order, Interrupted, t) && t.work != s.work && !Allowed(t, order)
  {
    hide RecordsOf, WellFormed, Lifecycle.Revise, Overlay, Readable, Decodes, Settles, Applied;
    var record := RecordsOf(s.work)[order.id];
    RecordInItsFile(s.work, order.id);
    var files := FilesFor(record, order);
    t := s.(work := Overlay(s.work, files[..1]));
    assert files[..1] == [files[0]];
    OverlayOfOne(s.work, files[0]);
    assert files[0].path != files[1].path && files[1] in files;
    assert !Applied(t.work, files) by { assert !Has(t.work, files[1]); NotApplied(t.work, files); }
    RetryIsAdopted(s, order, Interrupted, t, order.today);
  }

  lemma NotApplied(work: Tree, files: seq<WriteFile>)
    requires exists file :: file in files && !Has(work, file)
    ensures !Applied(work, files)
  {
  }

  /** Once the record is written, the worktree is the sound corpus the call checked. */
  lemma WrittenIsSound(s: State, order: Order, t: State)
    requires Editable(s, order) && t.work != s.work
    requires var files := FilesFor(RecordsOf(s.work)[order.id], order);
             exists n: nat :: n <= |files| && t.work == Overlay(s.work, files[..n])
    ensures var record := RecordsOf(s.work)[order.id];
            var text := Lifecycle.Revise(record, order.edit, order.today).value;
            && Sound(t.work) && record.path in t.work && t.work[record.path] == text && text.Document?
            && RecordsOf(t.work) == RecordsOf(s.work)[order.id := RecordAt(record.path, text)]
  {
    hide RecordsOf, WellFormed, Lifecycle.Revise, Readable, Decodes;
    var record := RecordsOf(s.work)[order.id];
    var text := Lifecycle.Revise(record, order.edit, order.today).value;
    var files := FilesFor(record, order);
    RecordInItsFile(s.work, order.id);
    ReviseDecodes(record, order.edit, order.today);
    ReadableWithRecord(s.work, record.path, text);
    var n: nat :| n <= |files| && t.work == Overlay(s.work, files[..n]);
    var one := s.work[record.path := text];
    assert n != 0;
    assert files[..1] == [files[0]];
    OverlayOfOne(s.work, files[0]);
    if n == 2 {
      assert files[..2][..1] == [files[0]];
      assert t.work == one[files[1].path := files[1].text];
      ReadableWithManifest(one, record.path.id, record.path.slug, files[1].text);
    }
  }
}
