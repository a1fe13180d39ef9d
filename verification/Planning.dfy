/** Why a planned write leaves the corpus sound (`writer.rs`, `edit.rs`). */
module Planning {
  import opened Basics
  import opened Naming
  import opened Records
  import opened Lifecycle
  import opened Writer
  import Scaffold
  import Text
  import Validation

  lemma ReadableWithRecord(tree: Tree, path: Path, text: Content)
    requires Readable(tree) && path.RecordFile? && Decodes(path, text)
    requires path in tree || !HasRecord(tree, path.id)
    ensures Readable(tree[path := text])
    ensures RecordsOf(tree[path := text]) == RecordsOf(tree)[path.id := RecordAt(path, text)]
  {
    hide Decodes, RecordsOf, Readable, HasRecord;
    var longer := tree[path := text];
    StillReadable(tree, path, text);
    RecordsAre(tree);
    RecordsAre(longer);
    DocumentIfDecodes(path, text);
    OnlyFileOf(tree, path);
    MapsAgree(RecordsOf(longer), RecordsOf(tree)[path.id := RecordAt(path, text)], longer);
  }

  lemma StillReadable(tree: Tree, path: Path, text: Content)
    requires Readable(tree) && path.RecordFile? && Decodes(path, text)
    requires path in tree || !HasRecord(tree, path.id)
    ensures Readable(tree[path := text])
  {
    hide Decodes;
  }

  lemma OnlyFileOf(tree: Tree, path: Path)
    requires Readable(tree) && path.RecordFile?
    requires path in tree || !HasRecord(tree, path.id)
    ensures forall p | p in tree && p.RecordFile? && p.id == path.id :: p == path
  {
    hide Decodes;
  }

  lemma DocumentIfDecodes(path: Path, text: Content)
    requires path.RecordFile? && Decodes(path, text)
    ensures text.Document?
  {
    hide SlugAgrees, ValidSlug;
  }

  /** What `RecordsOf` holds, file by file. */
  lemma RecordsAre(tree: Tree)
    requires Readable(tree)
    ensures forall p | p in tree && p.RecordFile? ::
              p.id in RecordsOf(tree) && tree[p].Document? && RecordsOf(tree)[p.id] == RecordAt(p, tree[p])
    ensures forall id | id in RecordsOf(tree) :: exists p :: p in tree && p.RecordFile? && p.id == id
  {
    hide SlugAgrees, ValidSlug, Text.UnixLines;
  }

  lemma MapsAgree(a: map<RecordId, Record>, b: map<RecordId, Record>, tree: Tree)
    requires forall id | id in a :: exists p :: p in tree && p.RecordFile? && p.id == id
    requires forall id | id in b :: exists p :: p in tree && p.RecordFile? && p.id == id
    requires forall p | p in tree && p.RecordFile? :: p.id in a && p.id in b && a[p.id] == b[p.id]
    ensures a == b
  {
  }

  lemma ReadableWithManifest(tree: Tree, id: RecordId, slug: string, text: Content)
    requires Readable(tree) && RecordFile(id, slug) in tree
    ensures Readable(tree[Manifest(id, slug) := text])
    ensures RecordsOf(tree[Manifest(id, slug) := text]) == RecordsOf(tree)
  {
    hide Decodes;
  }

  /** Nothing derives from a new record yet, so a chain back to its start avoids it. */
  lemma CycleIsOld(records: map<RecordId, Record>, id: RecordId, record: Record, chain: seq<RecordId>)
    requires id !in records && IsCycle(records[id := record], chain)
    requires forall other, parent | other in records && parent in records[other].meta.derivedFrom :: parent in records
    requires forall parent | parent in record.meta.derivedFrom :: parent in records
    ensures IsCycle(records, chain)
  {
    var longer := records[id := record];
    forall child, parent | Derives(longer, child, parent) ensures parent in records {
      assert child != id ==> longer[child] == records[child];
    }
    forall i | 0 < i < |chain| ensures chain[i] in records {
      assert Derives(longer, chain[i - 1], chain[i]);
    }
    assert chain[|chain| - 1] in records;
    forall i | 0 < i < |chain| ensures Derives(records, chain[i - 1], chain[i]) {
      assert Derives(longer, chain[i - 1], chain[i]) && chain[i - 1] in records;
    }
  }

  lemma NewRecordKeepsAcyclic(records: map<RecordId, Record>, id: RecordId, record: Record)
    requires Acyclic(records) && id !in records
    requires forall other, parent | other in records && parent in records[other].meta.derivedFrom :: parent in records
    requires forall parent | parent in record.meta.derivedFrom :: parent in records
    ensures Acyclic(records[id := record])
  {
    var longer := records[id := record];
    forall chain ensures !IsCycle(longer, chain) {
      if IsCycle(longer, chain) {
        CycleIsOld(records, id, record, chain);
      }
    }
  }

  lemma ParentsExist(records: map<RecordId, Record>)
    requires forall id | id in records :: RefsOk(records, records[id].meta)
    ensures forall other, parent | other in records && parent in records[other].meta.derivedFrom :: parent in records
  {
    forall other, parent | other in records && parent in records[other].meta.derivedFrom ensures parent in records {
      assert DerivedFrom in FIELDS by { assert FIELDS[0] == DerivedFrom; }
      assert FieldOk(records, records[other].meta, DerivedFrom);
      var targets := Targets(records[other].meta, DerivedFrom);
      var i :| 0 <= i < |targets| && targets[i] == parent;
      assert TargetOk(records, DerivedFrom, targets[i]);
    }
  }

  lemma NewRecordKeepsWellFormed(records: map<RecordId, Record>, id: RecordId, record: Record)
    requires WellFormed(records) && 0 < id.number && IsHighest(records.Keys, id.kind, id.number - 1)
    requires forall parent | parent in record.meta.derivedFrom :: parent in records
    requires record.meta.answeredBy == record.meta.tests == record.meta.claims == record.meta.supersedes == []
    requires record.meta.assessments == []
    ensures WellFormed(records[id := record])
  {
    var longer := records[id := record];
    assert id !in records;
    ParentsExist(records);
    NewRecordKeepsAcyclic(records, id, record);
    assert RefsOk(longer, record.meta) by {
      hide Acyclic, NoGaps;
    }
    forall other | other in records ensures RefsOk(longer, records[other].meta) {
      hide Acyclic, NoGaps;
      assert RefsOk(records, records[other].meta);
    }
  }

  /** A reservation's files extend a sound tree to a sound one. */
  lemma NewRecordIsSound(tree: Tree, id: RecordId, path: Path, text: Content)
    requires Sound(tree) && path.RecordFile? && path.id == id && Decodes(path, text)
    requires 0 < id.number && IsHighest(RecordsOf(tree).Keys, id.kind, id.number - 1)
    requires forall parent | parent in text.meta.derivedFrom :: parent in RecordsOf(tree)
    requires text.meta.answeredBy == text.meta.tests == text.meta.claims == text.meta.supersedes == []
    requires text.meta.assessments == []
    ensures !HasRecord(tree, id)
    ensures DistinctPaths(NewFiles(id, path, text))
    ensures forall file | file in NewFiles(id, path, text) :: Fits(tree, file)
    ensures Sound(Overlay(tree, NewFiles(id, path, text)))
  {
    hide WellFormed, SlugAgrees, ValidSlug, Readable;
    var files := NewFiles(id, path, text);
    assert id !in RecordsOf(tree);
    NoRecordNoFile(tree, id);
    ReadableWithRecord(tree, path, text);
    NewRecordKeepsWellFormed(RecordsOf(tree), id, RecordAt(path, text));
    var one := tree[path := text];
    OverlayOfNewFiles(tree, id, path, text);
    if id.kind == Research {
      ReadableWithManifest(one, id, path.slug, EMPTY_MANIFEST);
    }
  }

  lemma OverlayOfNewFiles(tree: Tree, id: RecordId, path: Path, text: Content)
    requires path.RecordFile?
    ensures Overlay(tree, NewFiles(id, path, text)) ==
            if id.kind == Research then tree[path := text][Manifest(path.id, path.slug) := EMPTY_MANIFEST]
            else tree[path := text]
  {
    var files := NewFiles(id, path, text);
    assert files[..1] == [WriteFile(path, text, None)];
    assert Overlay(tree, files[..1]) == tree[path := text] by {
      assert files[..1][..0] == [];
    }
    if id.kind != Research {
      assert files == files[..1];
    }
  }

  lemma NoRecordNoFile(tree: Tree, id: RecordId)
    requires Readable(tree) && id !in RecordsOf(tree)
    ensures !HasRecord(tree, id)
    ensures id.kind == Research ==> forall slug :: Manifest(id, slug) !in tree
  {
    forall path | path in tree && path.RecordFile? ensures path.id != id {
      assert path.id in RecordsOf(tree);
    }
    forall slug | id.kind == Research ensures Manifest(id, slug) !in tree {
      assert Manifest(id, slug) in tree ==> RecordFile(id, slug) in tree;
    }
  }

  /** Replacing one record's text by one that decodes keeps the tree sound exactly
      when the records with that one replaced are well formed. */
  lemma RewriteIsSound(tree: Tree, path: Path, text: Content)
    requires Readable(tree) && path in tree && path.RecordFile? && Decodes(path, text)
    ensures Sound(tree[path := text]) <==> WellFormed(RecordsOf(tree)[path.id := RecordAt(path, text)])
  {
    ReadableWithRecord(tree, path, text);
  }

  /** A revision or assessment of a record that decodes gives text that decodes there too. */
  lemma ReviseDecodes(record: Record, edit: Edit, today: string)
    requires FromFile(record)
    requires Lifecycle.Revise(record, edit, today).Success?
    ensures Decodes(record.path, Lifecycle.Revise(record, edit, today).value)
  {
    hide Lifecycle.RevisedRaw, Lifecycle.BodyChanged, Text.Trim, Text.UnixLines, Kebab;
  }

  lemma AssessDecodes(records: map<RecordId, Record>, record: Record, verdict: Verdict,
                      verdictStatus: map<string, string>, today: string)
    requires FromFile(record)
    requires Lifecycle.Assess(records, record, verdict, verdictStatus, today).Success?
    ensures Decodes(record.path, Lifecycle.Assess(records, record, verdict, verdictStatus, today).value)
  {
  }

  // ---- When a write is planned ----------------------------------------------

  const MAX_NUMBER: nat := 999

  /** A clean, valid checkout that holds every predecessor and has an id of the kind left. */
  ghost predicate Allocatable(s: Repo, request: Request)
    requires s.chain != [] && request.Reserve?
  {
    && Clean(s)
    && Sound(s.work)
    && (forall parent | parent in request.derivedFrom :: parent in RecordsOf(s.work))
    && RecordId(request.kind, MAX_NUMBER) !in RecordsOf(s.work)
  }

  /** `id` is the next number of its kind at the checkout. */
  ghost predicate IsNext(s: Repo, kind: Kind, id: RecordId)
  {
    && Readable(s.work)
    && id.kind == kind && 0 < id.number < 1000
    && IsHighest(RecordsOf(s.work).Keys, kind, id.number - 1)
  }

  /** The plan of a fresh reservation: the next number of its kind, and a new record of its
      request in full. */
  ghost predicate PlansNew(s: Repo, request: Request, ascii: string, today: string, plan: Intent)
    requires request.Reserve?
  {
    && IsNext(s, request.kind, plan.id)
    && plan.request == request
    && plan.path == Scaffold.NewPath(plan.id, ascii)
    && Scaffold.StartsAs(plan.id, NewSlug(ascii), request.title, request.body, request.tags,
                         request.derivedFrom, today, plan.text)
    && plan.text == Scaffold.NewRecord(plan.id, request.title, ascii, request.body, request.tags,
                                        request.derivedFrom, today)
  }

  /** The new text a rewrite asks for. `accepted` is the host's answer on the cited
      result, asked only when the expected blob is current. */
  function Render(records: map<RecordId, Record>, record: Record, request: Request,
                  verdictStatus: map<string, string>, accepted: bool, today: string): Result<Content>
    requires !request.Reserve? && record.path.RecordFile? && record.meta.id.number < 1000
  {
    match request
    case ReviseQuestion(_, _, edit) =>
      if record.meta.id.kind == Question then Lifecycle.Revise(record, edit, today) else Failure(InvalidInput)
    case Revise(_, _, edit) =>
      if record.meta.id.kind == Research then Failure(Refused) else Lifecycle.Revise(record, edit, today)
    case Assess(_, blob, verdict) =>
      var text :- Lifecycle.Assess(records, record, verdict, verdictStatus, today);
      if record.blob == blob && !accepted then Failure(Refused) else Success(text)
  }

  /** When a rewrite renders: a question's own revision on a question, a plain one on anything
      but a research record, a verdict only with the host's acceptance. */
  predicate RenderAllowed(records: map<RecordId, Record>, record: Record, request: Request, accepted: bool)
    requires !request.Reserve?
  {
    match request
    case ReviseQuestion(_, _, edit) => record.meta.id.kind == Question && EditAllowed(record, edit)
    case Revise(_, _, edit) => record.meta.id.kind != Research && EditAllowed(record, edit)
    case Assess(_, blob, verdict) => VerdictAllowed(records, record, verdict) && (record.blob == blob ==> accepted)
  }

  /** The text holds what the request names, and otherwise what the record held. */
  ghost predicate WritesRequest(record: Record, request: Request, verdictStatus: map<string, string>,
                                today: string, text: Content)
    requires !request.Reserve? && record.path.RecordFile? && record.meta.id.number < 1000
  {
    match request
    case ReviseQuestion(_, _, edit) => EditWritten(record, edit, today, text)
    case Revise(_, _, edit) => EditWritten(record, edit, today, text)
    case Assess(_, _, verdict) => VerdictWritten(record, verdict, verdictStatus, today, text)
  }

  /** A rewrite renders exactly when it is allowed, and what it renders is what it asks for. */
  lemma RenderWrites(records: map<RecordId, Record>, record: Record, request: Request,
                     verdictStatus: map<string, string>, accepted: bool, today: string)
    requires !request.Reserve? && record.path.RecordFile? && record.meta.id.number < 1000
    ensures var text := Render(records, record, request, verdictStatus, accepted, today);
            && (text.Success? <==> RenderAllowed(records, record, request, accepted))
            && (text.Success? ==> WritesRequest(record, request, verdictStatus, today, text.value))
  {
    hide Lifecycle.Revise, Lifecycle.Assess, EditAllowed, VerdictAllowed, EditWritten, VerdictWritten;
    match request
    case ReviseQuestion(_, _, edit) => RevisionWrites(record, edit, today);
    case Revise(_, _, edit) => RevisionWrites(record, edit, today);
    case Assess(_, _, verdict) => VerdictWrites(records, record, verdict, verdictStatus, today);
  }

  /** When a rewrite not planned before is accepted: its expected blob is current,
      it renders, and the corpus with it is well formed. */
  ghost predicate Rewritable(s: Repo, request: Request, verdictStatus: map<string, string>,
                               accepted: bool, today: string)
    requires s.chain != [] && !request.Reserve?
  {
    && !BlankQuestionTitle(request)
    && Clean(s)
    && Sound(s.work)
    && var records := RecordsOf(s.work);
    && request.id in records
    && var record := records[request.id];
    && record.blob == request.blob
    && var text := Render(records, record, request, verdictStatus, accepted, today);
    && text.Success?
    && WellFormed(records[request.id := RecordAt(record.path, text.value)])
  }

  /** The text an accepted rewrite plans to write. */
  ghost function RewrittenText(s: Repo, request: Request, verdictStatus: map<string, string>,
                                 accepted: bool, today: string): Content
    requires s.chain != [] && !request.Reserve? && Rewritable(s, request, verdictStatus, accepted, today)
  {
    var records := RecordsOf(s.work);
    Render(records, records[request.id], request, verdictStatus, accepted, today).value
  }

  /** The plan of a fresh rewrite: the record's own file, with what the request asks for. */
  ghost predicate PlansRewrite(s: Repo, request: Request, verdictStatus: map<string, string>, today: string,
                               plan: Intent)
    requires !request.Reserve?
  {
    && Readable(s.work) && request.id in RecordsOf(s.work)
    && var record := RecordsOf(s.work)[request.id];
    && record.path.RecordFile? && record.meta.id.number < 1000
    && record.blob == request.blob && plan.path == record.path && plan.request == request
    && WritesRequest(record, request, verdictStatus, today, plan.text)
  }

  /** So an accepted rewrite is of a record with the expected bytes, is allowed, and plans
      what it asks for. */
  lemma RewrittenTextWrites(s: Repo, request: Request, verdictStatus: map<string, string>,
                            accepted: bool, today: string)
    requires s.chain != [] && !request.Reserve? && Rewritable(s, request, verdictStatus, accepted, today)
    ensures request.id in RecordsOf(s.work)
    ensures var record := RecordsOf(s.work)[request.id];
            && record.blob == request.blob && record.path.RecordFile? && record.meta.id.number < 1000
            && RenderAllowed(RecordsOf(s.work), record, request, accepted)
            && WritesRequest(record, request, verdictStatus, today,
                             RewrittenText(s, request, verdictStatus, accepted, today))
  {
    hide WellFormed, RecordsOf, Render, RenderAllowed, WritesRequest;
    RecordInItsFile(s.work, request.id);
    RenderWrites(RecordsOf(s.work), RecordsOf(s.work)[request.id], request, verdictStatus, accepted, today);
  }

  method HighestNumber(ids: set<RecordId>, kind: Kind) returns (highest: nat)
    ensures IsHighest(ids, kind, highest)
  {
    highest := 0;
    var todo := ids;
    while todo != {}
      invariant todo <= ids
      invariant IsHighest(ids - todo, kind, highest)
    {
      var id :| id in todo;
      todo := todo - {id};
      if id.kind == kind && highest < id.number {
        highest := id.number;
        assert RecordId(kind, highest) == id;
      }
    }
    assert ids - {} == ids;
  }

  /** With no gaps, the id space of a kind is full exactly when its last id is taken. */
  lemma HighestBelow(ids: set<RecordId>, kind: Kind, highest: nat, n: nat)
    requires NoGaps(ids) && IsHighest(ids, kind, highest) && 1 <= n
    ensures RecordId(kind, n) in ids <==> n <= highest
  {
    if n <= highest {
      Validation.NoGapsFills(ids, RecordId(kind, highest), n);
    }
  }

  lemma {:induction false} HighestExists(ids: set<RecordId>, kind: Kind) returns (highest: nat)
    ensures IsHighest(ids, kind, highest)
    decreases |ids|
  {
    if ids == {} {
      return 0;
    }
    var id :| id in ids;
    highest := HighestExists(ids - {id}, kind);
    if id.kind == kind && highest < id.number {
      assert RecordId(kind, id.number) == id;
      highest := id.number;
    }
  }

  /** The ids of a kind are exactly 1 to `n`. */
  ghost predicate NumberedTo(ids: set<RecordId>, kind: Kind, n: nat) {
    forall m: nat :: RecordId(kind, m) in ids <==> 1 <= m <= n
  }

  ghost predicate Numbered(ids: set<RecordId>, kind: Kind) {
    exists n: nat :: NumberedTo(ids, kind, n)
  }

  /** Gap-free numbering is numbering from 1 to some n in every kind. */
  lemma NoGapsIsNumbering(ids: set<RecordId>)
    ensures NoGaps(ids) <==> forall kind: Kind :: Numbered(ids, kind)
  {
    if NoGaps(ids) {
      forall kind: Kind ensures Numbered(ids, kind) {
        var highest := HighestExists(ids, kind);
        forall m: nat ensures RecordId(kind, m) in ids <==> 1 <= m <= highest {
          if m > 0 { HighestBelow(ids, kind, highest, m); }
        }
        assert NumberedTo(ids, kind, highest);
      }
    }
    if forall kind: Kind :: Numbered(ids, kind) {
      forall id | id in ids ensures 1 <= id.number && (1 < id.number ==> RecordId(id.kind, id.number - 1) in ids) {
        assert Numbered(ids, id.kind);
        var n: nat :| NumberedTo(ids, id.kind, n);
        assert RecordId(id.kind, id.number) == id;
      }
    }
  }

  /** The records of a readable tree sit in their own files. */
  lemma RecordInItsFile(tree: Tree, id: RecordId)
    requires Readable(tree) && id in RecordsOf(tree)
    ensures var record := RecordsOf(tree)[id];
            && record.path in tree && record.path.RecordFile? && record.path.id == id
            && record == RecordAt(record.path, tree[record.path])
            && record.meta.id == id && id.number < 1000
            && Decodes(record.path, record.blob)
  {
    hide SlugAgrees, ValidSlug;
  }

  lemma RenderDecodes(records: map<RecordId, Record>, record: Record, request: Request,
                      verdictStatus: map<string, string>, accepted: bool, today: string)
    requires !request.Reserve? && FromFile(record)
    requires Render(records, record, request, verdictStatus, accepted, today).Success?
    ensures Decodes(record.path, Render(records, record, request, verdictStatus, accepted, today).value)
  {
    hide Decodes, Lifecycle.Revise, Lifecycle.Assess;
    match request
    case ReviseQuestion(_, _, edit) => ReviseDecodes(record, edit, today);
    case Revise(_, _, edit) => ReviseDecodes(record, edit, today);
    case Assess(_, _, verdict) => AssessDecodes(records, record, verdict, verdictStatus, today);
  }

  function RewriteIntent(parent: nat, request: Request, path: Path, text: Content): Intent
    requires !request.Reserve?
  {
    Intent(request, request.id, path, text, parent, [WriteFile(path, text, Some(request.blob))], None)
  }

  /** A rewrite of the clean checkout's record is a plan the writer can keep. */
  lemma RewriteIsPlanned(s: Repo, request: Request, path: Path, text: Content)
    requires s.chain != [] && Clean(s) && Sound(s.work) && !request.Reserve?
    requires path in s.work && path.RecordFile? && path.id == request.id
    requires s.work[path] == request.blob && Decodes(path, text)
    requires WellFormed(RecordsOf(s.work)[request.id := RecordAt(path, text)])
    ensures IntentOk(s.chain, RewriteKey(request), RewriteIntent(|s.chain| - 1, request, path, text))
  {
    hide Sound, WellFormed, RecordsOf, Overlay, Decodes, TakesNext, Honest;
    OverlayOfOne(s.work, WriteFile(path, text, Some(request.blob)));
    SoundIsReadable(s.work);
    RewriteIsSound(s.work, path, text);
    hide Readable;
  }

  lemma OverlayOfOne(tree: Tree, file: WriteFile)
    ensures Overlay(tree, [file]) == tree[file.path := file.text]
  {
    assert [file][..0] == [];
  }

  lemma SoundIsReadable(tree: Tree)
    requires Sound(tree)
    ensures Readable(tree) && WellFormed(RecordsOf(tree))
  {
  }

  function NewIntent(parent: nat, request: Request, id: RecordId, path: Path, text: Content): Intent {
    Intent(request, id, path, text, parent, NewFiles(id, path, text), None)
  }

  lemma NewRecordIsPlanned(s: Repo, requestKey: string, request: Request, id: RecordId, ascii: string, today: string)
    requires s.chain != [] && request.Reserve? && Allocatable(s, request) && IsNext(s, request.kind, id)
    ensures var path := Scaffold.NewPath(id, ascii);
            var text := Scaffold.NewRecord(id, request.title, ascii, request.body, request.tags,
                                           request.derivedFrom, today);
            IntentOk(s.chain, RequestKey(requestKey), NewIntent(|s.chain| - 1, request, id, path, text))
  {
    hide Sound, Readable, WellFormed, RecordsOf, Overlay, Decodes, IsHighest, HasRecord, Scaffold.NewRecord;
    var path := Scaffold.NewPath(id, ascii);
    var text := Scaffold.NewRecord(id, request.title, ascii, request.body, request.tags, request.derivedFrom, today);
    Scaffold.NewRecordIsGood(id, request.title, ascii, request.body, request.tags, request.derivedFrom, today);
    NewRecordIsSound(s.work, id, path, text);
  }

  lemma NewIntentPlansNew(s: Repo, request: Request, id: RecordId, ascii: string, today: string, plan: Intent)
    requires s.chain != [] && request.Reserve? && IsNext(s, request.kind, id)
    requires var path := Scaffold.NewPath(id, ascii);
             var text := Scaffold.NewRecord(id, request.title, ascii, request.body, request.tags,
                                            request.derivedFrom, today);
             SamePlan(NewIntent(|s.chain| - 1, request, id, path, text), plan)
    ensures PlansNew(s, request, ascii, today, plan)
  {
    hide Files, NewFiles, Scaffold.StartsAs, Scaffold.NewRecord;
    Scaffold.NewRecordStarts(id, request.title, ascii, request.body, request.tags, request.derivedFrom, today);
  }

  /** A plan just saved on a clean checkout is resumable. */
  lemma PlanIsResumable(s: Repo, key: Key)
    requires s.chain != [] && Clean(s) && key in s.intents
    requires s.intents[key].parent == |s.chain| - 1
    ensures Resumable(s, key)
  {
    var files := Files(s.intents[key]);
    assert files[..0] == [];
    assert Partial(s, files, 0);
  }

  /** A rendered record as it would be read. */
  function ReadBack(path: Path, content: Content): (record: Record)
    requires path.RecordFile? && Decodes(path, content)
    ensures content.Document? && record == RecordAt(path, content)
  {
    RecordAt(path, content)
  }

  /** What `snapshot` checks of a tree: every record reads and the corpus is well formed. */
  method TreeIsSound(tree: Tree) returns (ok: bool)
    ensures ok <==> Sound(tree)
  {
    if !Readable(tree) {
      return false;
    }
    var issues := Validation.ValidateRecords(RecordsOf(tree));
    return issues == [];
  }
}
