/** What a corpus checkout holds: trees of files, and the records read from them. */
module Records {
  import opened Basics
  import opened Naming
  import Text

  /** One verdict on one revision of a hypothesis. */
  datatype Assessment = Assessment(
    date: string, research: RecordId, revision: nat, verdict: string, strength: string, note: Option<string>)

  datatype Provenance = Provenance(task: Option<string>, run: Option<string>)

  /** A record's frontmatter. `revision` and `assessments` belong to hypotheses. */
  datatype Metadata = Metadata(
    id: RecordId, title: string, slug: Option<string>, status: string, tags: seq<string>,
    derivedFrom: seq<RecordId>, answeredBy: seq<RecordId>, tests: seq<RecordId>,
    claims: seq<RecordId>, supersedes: seq<RecordId>,
    revision: Option<nat>, assessments: seq<Assessment>, orbit: Option<Provenance>,
    created: string, updated: string)

  /** A file's bytes. Of a record: its frontmatter, everything after it byte for byte, and
      how the frontmatter is written (`CANONICAL` when the store rendered it). Git blob ids
      and digests are injective, so a content is also its own blob id. */
  datatype Content =
    | Document(meta: Metadata, raw: string, form: string)
    | Plain(text: string)

  const CANONICAL := ""

  function Rendered(meta: Metadata, raw: string): Content {
    Document(meta, raw, CANONICAL)
  }

  /** `RecordFile` is `{directory}/{id}-{slug}.md`, or its `README.md` for research;
      `Manifest` is the research directory's `data/manifest.json`. */
  datatype Path =
    | RecordFile(id: RecordId, slug: string)
    | Manifest(id: RecordId, slug: string)
    | OtherFile(name: string)

  type Tree = map<Path, Content>

  /** A record as it is read: line endings in `body` are converted; `blob` is the file. */
  datatype Record = Record(path: Path, meta: Metadata, body: string, blob: Content)

  // ---- References -----------------------------------------------------------

  datatype Field = DerivedFrom | AnsweredBy | Tests | Claims | Supersedes

  const FIELDS: seq<Field> := [DerivedFrom, AnsweredBy, Tests, Claims, Supersedes]

  function Targets(meta: Metadata, field: Field): seq<RecordId> {
    match field
    case DerivedFrom => meta.derivedFrom
    case AnsweredBy => meta.answeredBy
    case Tests => meta.tests
    case Claims => meta.claims
    case Supersedes => meta.supersedes
  }

  predicate Allowed(field: Field, kind: Kind) {
    match field
    case DerivedFrom => true
    case AnsweredBy => kind == Hypothesis || kind == Research
    case Tests => kind == Hypothesis
    case Claims => kind == Hypothesis
    case Supersedes => kind == Theory
  }

  // ---- A well-formed corpus -------------------------------------------------

  /** Numbers of each kind run from 1 with no gap. */
  predicate NoGaps(ids: set<RecordId>) {
    forall id :: id in ids ==> 1 <= id.number && (1 < id.number ==> RecordId(id.kind, id.number - 1) in ids)
  }

  /** The largest number of a kind, or 0. */
  ghost predicate IsHighest(ids: set<RecordId>, kind: Kind, highest: nat) {
    && (forall id | id in ids && id.kind == kind :: id.number <= highest)
    && (highest == 0 || RecordId(kind, highest) in ids)
  }

  predicate TargetOk(records: map<RecordId, Record>, field: Field, target: RecordId) {
    target in records && Allowed(field, target.kind)
  }

  predicate FieldOk(records: map<RecordId, Record>, meta: Metadata, field: Field) {
    forall i :: 0 <= i < |Targets(meta, field)| ==> TargetOk(records, field, Targets(meta, field)[i])
  }

  /** An assessment cites a research record, at a revision that exists. */
  predicate CitationOk(records: map<RecordId, Record>, meta: Metadata, assessment: Assessment) {
    && assessment.research in records
    && assessment.research.kind == Research
    && (meta.revision.Some? ==> assessment.revision <= meta.revision.value)
  }

  predicate RefsOk(records: map<RecordId, Record>, meta: Metadata) {
    && (forall field | field in FIELDS :: FieldOk(records, meta, field))
    && (forall i :: 0 <= i < |meta.assessments| ==> CitationOk(records, meta, meta.assessments[i]))
  }

  /** A record's references are in order exactly when every target exists, questions are answered
      by hypotheses and research, research tests hypotheses, theories claim hypotheses and
      supersede theories, and every verdict cites research at a revision there is. */
  lemma RefsOkIff(records: map<RecordId, Record>, meta: Metadata)
    ensures FieldOk(records, meta, DerivedFrom) <==> forall id | id in meta.derivedFrom :: id in records
    ensures FieldOk(records, meta, AnsweredBy) <==>
            forall id | id in meta.answeredBy :: id in records && id.kind in {Hypothesis, Research}
    ensures FieldOk(records, meta, Tests) <==>
            forall id | id in meta.tests :: id in records && id.kind == Hypothesis
    ensures FieldOk(records, meta, Claims) <==>
            forall id | id in meta.claims :: id in records && id.kind == Hypothesis
    ensures FieldOk(records, meta, Supersedes) <==>
            forall id | id in meta.supersedes :: id in records && id.kind == Theory
    ensures RefsOk(records, meta) <==>
            && FieldOk(records, meta, DerivedFrom) && FieldOk(records, meta, AnsweredBy)
            && FieldOk(records, meta, Tests) && FieldOk(records, meta, Claims) && FieldOk(records, meta, Supersedes)
            && (forall entry | entry in meta.assessments ::
                  && entry.research in records && entry.research.kind == Research
                  && (meta.revision.Some? ==> entry.revision <= meta.revision.value))
  {
    AllFields(records, meta);
    hide FieldOk;
    FieldOkIs(records, meta, DerivedFrom);
    FieldOkIs(records, meta, AnsweredBy);
    FieldOkIs(records, meta, Tests);
    FieldOkIs(records, meta, Claims);
    FieldOkIs(records, meta, Supersedes);
    assert (forall i :: 0 <= i < |meta.assessments| ==> CitationOk(records, meta, meta.assessments[i])) <==>
           forall entry | entry in meta.assessments :: CitationOk(records, meta, entry);
  }

  lemma AllFields(records: map<RecordId, Record>, meta: Metadata)
    ensures (forall field | field in FIELDS :: FieldOk(records, meta, field)) <==>
            && FieldOk(records, meta, DerivedFrom) && FieldOk(records, meta, AnsweredBy)
            && FieldOk(records, meta, Tests) && FieldOk(records, meta, Claims) && FieldOk(records, meta, Supersedes)
  {
    hide FieldOk;
    assert FIELDS[0] == DerivedFrom && FIELDS[1] == AnsweredBy && FIELDS[2] == Tests && FIELDS[3] == Claims;
    assert FIELDS[4] == Supersedes;
  }

  lemma FieldOkIs(records: map<RecordId, Record>, meta: Metadata, field: Field)
    ensures FieldOk(records, meta, field) <==>
            forall id | id in Targets(meta, field) :: id in records && Allowed(field, id.kind)
  {
    hide Targets;
  }

  /** `child` names `parent` in `derived_from`, and both exist. */
  predicate Derives(records: map<RecordId, Record>, child: RecordId, parent: RecordId) {
    child in records && parent in records && parent in records[child].meta.derivedFrom
  }

  predicate IsChain(records: map<RecordId, Record>, chain: seq<RecordId>) {
    forall i :: 0 < i < |chain| ==> Derives(records, chain[i - 1], chain[i])
  }

  predicate IsCycle(records: map<RecordId, Record>, chain: seq<RecordId>) {
    2 <= |chain| && chain[0] == chain[|chain| - 1] && IsChain(records, chain)
  }

  ghost predicate OnCycle(records: map<RecordId, Record>, id: RecordId) {
    exists chain :: IsCycle(records, chain) && chain[0] == id
  }

  ghost predicate Acyclic(records: map<RecordId, Record>) {
    forall chain :: !IsCycle(records, chain)
  }

  /** The whole-corpus rules: numbering, references, citations and lineage. */
  ghost predicate WellFormed(records: map<RecordId, Record>) {
    && NoGaps(records.Keys)
    && (forall id | id in records :: RefsOk(records, records[id].meta))
    && Acyclic(records)
  }

  // ---- Reading records from a tree ------------------------------------------

  /** A record file that decodes: its name splits, its frontmatter agrees with it. */
  predicate Decodes(path: Path, content: Content)
    requires path.RecordFile?
  {
    && path.id.number < 1000
    && ValidSlug(path.slug)
    && content.Document?
    && content.meta.id == path.id
    && SlugAgrees(content.meta.title, content.meta.slug, path.slug)
  }

  predicate NameReads(name: string, id: RecordId, slug: string) {
    ParseRecordName(id.kind, name, id.kind == Research) == Some((id, slug))
  }

  /** A file decodes exactly when some name of its kind reads as its id and slug, and it is a
      document of that id whose slug is the one it declares, or the title's if it declares none. */
  lemma DecodesIff(path: Path, content: Content)
    requires path.RecordFile?
    ensures Decodes(path, content) <==>
            && (exists name :: NameReads(name, path.id, path.slug))
            && content.Document? && content.meta.id == path.id
            && (content.meta.slug == Some(path.slug)
                || (content.meta.slug == None && Kebab(content.meta.title) == path.slug))
  {
    hide ParseRecordName, ValidSlug, Kebab;
    var directory := path.id.kind == Research;
    if path.id.number < 1000 && ValidSlug(path.slug) {
      RecordNameParses(path.id, path.slug, directory);
      assert NameReads(RecordName(path.id, path.slug, directory), path.id, path.slug);
    }
    forall name | NameReads(name, path.id, path.slug) ensures path.id.number < 1000 && ValidSlug(path.slug) {
      ParsedNameIsRecordName(path.id.kind, name, directory);
    }
  }

  /** Every record file decodes, ids are unique, and no research directory lacks its README. */
  predicate Readable(tree: Tree) {
    && (forall p | p in tree && p.RecordFile? :: Decodes(p, tree[p]))
    && (forall p, q | p in tree && q in tree && p.RecordFile? && q.RecordFile? && p.id == q.id :: p == q)
    && (forall p | p in tree && p.Manifest? && p.id.kind == Research :: RecordFile(p.id, p.slug) in tree)
  }

  function RecordAt(path: Path, content: Content): Record
    requires path.RecordFile? && content.Document?
  {
    Record(path, content.meta, Text.UnixLines(content.raw), content)
  }

  function RecordsOf(tree: Tree): map<RecordId, Record>
    requires Readable(tree)
  {
    map p | p in tree && p.RecordFile? :: p.id := RecordAt(p, tree[p])
  }

  /** What a snapshot accepts. */
  ghost predicate Sound(tree: Tree) {
    Readable(tree) && WellFormed(RecordsOf(tree))
  }
}
