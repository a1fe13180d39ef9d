/** The delivery gate (`delivery.rs`): one research record is checked at a checkout before
    its run commits it. */
module Delivery {
  import opened Basics
  import opened Naming
  import opened Records
  import opened Sections
  import Lifecycle
  import Planning
  import Scaffold
  import Text
  import Validation
  import Worktree
  import Writer

  datatype Reason =
    | ResearchUnbound
    | RecordInvalid
    | SectionMissing
    | SectionPlaceholder
    | OrbitTaskMismatch
    | OrbitRunMismatch
    | ManifestInvalid
    | ArtifactDigestMismatch
    | DanglingLineage
    | IdAllocated
    | OtherRecordChanged
    | CorpusInvalid

  /** One entry of `data/manifest.json`. */
  datatype Input = Input(name: Option<string>, digest: Option<string>, shared: bool, size: Option<nat>)

  datatype DataFile = Bytes(bytes: string) | Unreadable

  /** `bound` is the worktree writer's binding; `data` the files beside the record's manifest. */
  datatype Checkout = Checkout(head: Tree, work: Tree, bound: Option<RecordId>, data: map<string, DataFile>)

  datatype Expected = Expected(research: Option<RecordId>, task: string, run: string)

  /** What the owner schema and foreign code decide: the README sections, the fields that
      hold references, how a manifest reads, which names stay inside the data directory, and
      the digest of some bytes. */
  datatype Rules = Rules(
    wanted: seq<string>, references: seq<Field>, manifest: Content -> Option<seq<Input>>,
    inside: string -> bool, sha256: string -> string)

  class DeliveryReport {
    var research: Option<RecordId>
    var path: Option<Path>
    var blob: Option<Content>
    var findings: seq<Reason>
    var unverified: seq<string>
    var digests: map<string, string>

    constructor ()
      ensures research == None && path == None && blob == None && findings == [] && unverified == [] && digests == map[]
    {
      research, path, blob, findings, unverified, digests := None, None, None, [], [], map[];
    }

    method Fail(reason: Reason)
      modifies this`findings
      ensures findings == old(findings) + [reason]
    {
      findings := findings + [reason];
    }
  }

  // ---- What a deliverable checkout is ---------------------------------------

  /** The named record, or the bound one; they must not differ. */
  function DeliveredId(c: Checkout, expected: Expected): Option<RecordId> {
    match (expected.research, c.bound)
    case (Some(id), Some(bound)) => if id == bound then Some(id) else None
    case (Some(id), None) => Some(id)
    case (None, bound) => bound
  }

  predicate ProvenanceOk(meta: Metadata, expected: Expected) {
    meta.orbit.Some? && meta.orbit.value.task == Some(expected.task) && meta.orbit.value.run == Some(expected.run)
  }

  /** A local input with a declared digest; shared ones carry their own manifest elsewhere. */
  predicate Declares(input: Input) {
    input.name.Some? && input.digest.Some? && !input.shared
  }

  /** Its name stays in the data directory, and bytes that are there match digest and size. */
  predicate InputOk(rules: Rules, data: map<string, DataFile>, input: Input) {
    Declares(input) ==>
      && rules.inside(input.name.value)
      && (input.name.value in data ==>
            && data[input.name.value].Bytes?
            && var bytes := data[input.name.value].bytes;
            && EqualIgnoringCase(rules.sha256(bytes), input.digest.value)
            && (input.size.Some? ==> input.size.value == |bytes|))
  }

  function Inputs(c: Checkout, rules: Rules, path: Path): Option<seq<Input>>
    requires path.RecordFile?
  {
    var manifest := Manifest(path.id, path.slug);
    if manifest in c.work then rules.manifest(c.work[manifest]) else None
  }

  predicate ManifestOk(c: Checkout, rules: Rules, path: Path)
    requires path.RecordFile?
  {
    Inputs(c, rules, path).Some?
    && forall input | input in Inputs(c, rules, path).value :: InputOk(rules, c.data, input)
  }

  /** The record files a checkout names; a research directory names its README. */
  function Entries(tree: Tree): (entries: set<Path>)
    ensures forall p | p in entries :: p.RecordFile?
  {
    (set p | p in tree && p.RecordFile?) +
    (set p | p in tree && p.Manifest? && p.id.kind == Research :: RecordFile(p.id, p.slug))
  }

  function RecordPaths(tree: Tree): set<Path> {
    set p | p in tree && p.RecordFile?
  }

  /** Every record but one is byte for byte what HEAD holds. */
  predicate OthersUnchanged(head: Tree, work: Tree, id: RecordId) {
    forall p | p in work && p.RecordFile? && p.id != id :: p in head ==> work[p] == head[p]
  }

  function EditedOthers(head: Tree, work: Tree, id: RecordId): set<Path> {
    set p | p in work && p.RecordFile? && p.id != id && p in head && work[p] != head[p]
  }

  lemma EditedOthersIs(head: Tree, work: Tree, id: RecordId)
    ensures EditedOthers(head, work, id) == {} <==> OthersUnchanged(head, work, id)
  {
    if EditedOthers(head, work, id) == {} {
      forall p | p in work && p.RecordFile? && p.id != id ensures p in head ==> work[p] == head[p] {
        assert p !in EditedOthers(head, work, id);
      }
    }
  }

  ghost predicate ScopeOk(c: Checkout, id: RecordId) {
    && Entries(c.work) == RecordPaths(c.head)
    && Readable(c.work) && OthersUnchanged(c.head, c.work, id)
    && WellFormed(RecordsOf(c.work))
  }

  /** The record to deliver is in HEAD and still decodes at the same path. */
  predicate Present(c: Checkout, expected: Expected) {
    && Readable(c.head)
    && DeliveredId(c, expected).Some?
    && var id := DeliveredId(c, expected).value;
    && id.kind == Research && id in RecordsOf(c.head)
    && var path := RecordsOf(c.head)[id].path;
    path.RecordFile? && path in c.work && Decodes(path, c.work[path]) && c.work[path].Document?
  }

  ghost predicate Deliverable(c: Checkout, expected: Expected, rules: Rules) {
    && Present(c, expected)
    && var id := DeliveredId(c, expected).value;
    var path := RecordsOf(c.head)[id].path;
    && Written(rules.wanted, Text.UnixLines(c.work[path].raw))
    && ProvenanceOk(c.work[path].meta, expected)
    && ManifestOk(c, rules, path)
    && ScopeOk(c, id)
  }

  // ---- Which findings there are ---------------------------------------------

  /** `p` is a record's file there, or the README of a research directory there. */
  predicate HasEntry(tree: Tree, p: Path) {
    p.RecordFile? && (p in tree || (p.id.kind == Research && Manifest(p.id, p.slug) in tree))
  }

  lemma EntriesAre(tree: Tree, p: Path)
    ensures p in Entries(tree) <==> HasEntry(tree, p)
  {
    if HasEntry(tree, p) && p !in tree {
      assert Manifest(p.id, p.slug) in tree;
    }
  }

  ghost predicate SectionFinds(wanted: seq<string>, body: string, reason: Reason) {
    var sections := SectionsOf(Lines(body));
    || (reason == SectionMissing && Names(sections, wanted) != wanted)
    || (reason == SectionPlaceholder
        && exists section :: section in sections && section.name in wanted && IsPlaceholder(section.text))
  }

  predicate ProvenanceFinds(meta: Metadata, expected: Expected, reason: Reason) {
    || (reason == OrbitTaskMismatch && (meta.orbit.None? || meta.orbit.value.task != Some(expected.task)))
    || (reason == OrbitRunMismatch && (meta.orbit.None? || meta.orbit.value.run != Some(expected.run)))
  }

  /** A local input whose name leads outside, or whose file is there and does not read. */
  predicate Unfit(rules: Rules, data: map<string, DataFile>, input: Input) {
    && input.name.Some? && input.digest.Some? && !input.shared
    && (!rules.inside(input.name.value) || (input.name.value in data && data[input.name.value].Unreadable?))
  }

  /** A local input whose file reads as other bytes than it declares. */
  predicate Differs(rules: Rules, data: map<string, DataFile>, input: Input) {
    && input.name.Some? && input.digest.Some? && !input.shared
    && rules.inside(input.name.value) && input.name.value in data && data[input.name.value].Bytes?
    && !ReadsAs(rules, data[input.name.value], input.digest.value, input.size)
  }

  ghost predicate InputFinds(rules: Rules, data: map<string, DataFile>, inputs: seq<Input>, reason: Reason) {
    || (reason == ManifestInvalid && exists input :: input in inputs && Unfit(rules, data, input))
    || (reason == ArtifactDigestMismatch && exists input :: input in inputs && Differs(rules, data, input))
  }

  ghost predicate ManifestFinds(c: Checkout, rules: Rules, path: Path, reason: Reason)
    requires path.RecordFile?
  {
    var manifest := Manifest(path.id, path.slug);
    if manifest !in c.work || rules.manifest(c.work[manifest]).None? then reason == ManifestInvalid
    else InputFinds(rules, c.data, rules.manifest(c.work[manifest]).value, reason)
  }

  ghost predicate LineageFinds(meta: Metadata, references: seq<Field>, work: Tree, reason: Reason) {
    && reason == DanglingLineage
    && exists field, target ::
      field in references && target in Targets(meta, field) && forall p :: HasEntry(work, p) ==> p.id != target
  }

  /** The scope's rules are checked one after the other, and the corpus' rules only when
      nothing was found before. */
  ghost predicate ScopeFinds(c: Checkout, id: RecordId, clean: bool, reason: Reason) {
    if exists p :: HasEntry(c.work, p) != (p in c.head && p.RecordFile?) then
      || (reason == IdAllocated && exists p :: HasEntry(c.work, p) && p !in c.head)
      || (reason == OtherRecordChanged && exists p :: p in c.head && p.RecordFile? && !HasEntry(c.work, p))
    else if !Readable(c.work) then reason == CorpusInvalid
    else if exists p :: p in c.work && p.RecordFile? && p.id != id && p in c.head && c.work[p] != c.head[p]
    then reason == OtherRecordChanged
    else reason == CorpusInvalid && clean && !WellFormed(RecordsOf(c.work))
  }

  ghost predicate RecordFinds(c: Checkout, expected: Expected, rules: Rules, path: Path, reason: Reason)
    requires path.RecordFile? && path in c.work && c.work[path].Document?
  {
    var content := c.work[path];
    || SectionFinds(rules.wanted, Text.UnixLines(content.raw), reason)
    || ProvenanceFinds(content.meta, expected, reason)
    || ManifestFinds(c, rules, path, reason)
    || LineageFinds(content.meta, rules.references, c.work, reason)
  }

  /** The findings a delivery has, each by its own rule; a record that cannot be checked
      further hides the later ones. */
  ghost predicate Finds(c: Checkout, expected: Expected, rules: Rules, reason: Reason)
    requires Readable(c.head)
  {
    var id := DeliveredId(c, expected);
    if id.None? || id.value.kind != Research || id.value !in RecordsOf(c.head) then reason == ResearchUnbound
    else
      var path := RecordsOf(c.head)[id.value].path;
      if !path.RecordFile? || path !in c.work || c.work[path].Plain? then reason == RecordInvalid
      else if !Decodes(path, c.work[path]) then
        reason == RecordInvalid || SectionFinds(rules.wanted, Text.UnixLines(c.work[path].raw), reason)
      else
        || RecordFinds(c, expected, rules, path, reason)
        || ScopeFinds(c, id.value, forall other :: !RecordFinds(c, expected, rules, path, other), reason)
  }

  // ---- The checks -----------------------------------------------------------

  method CheckSections(report: DeliveryReport, wanted: seq<string>, body: string)
    modifies report`findings
    ensures old(report.findings) <= report.findings
    ensures report.findings == old(report.findings) <==> Written(wanted, body)
    ensures forall reason ::
              reason in report.findings <==> reason in old(report.findings) || SectionFinds(wanted, body, reason)
  {
    hide IsPlaceholder, Lines, SectionsOf, Names;
    var sections := ReadSections(body);
    assert (exists section :: section in sections && section.name in wanted && IsPlaceholder(section.text)) <==>
           exists i :: 0 <= i < |sections| && sections[i].name in wanted && IsPlaceholder(sections[i].text);
    var found := Names(sections, wanted);
    if found != wanted {
      report.Fail(SectionMissing);
    }
    if exists i :: 0 <= i < |sections| && sections[i].name in wanted && IsPlaceholder(sections[i].text) {
      report.Fail(SectionPlaceholder);
    }
  }

  method CheckProvenance(report: DeliveryReport, meta: Metadata, expected: Expected)
    modifies report`findings
    ensures old(report.findings) <= report.findings
    ensures report.findings == old(report.findings) <==> ProvenanceOk(meta, expected)
    ensures forall reason ::
              reason in report.findings <==> reason in old(report.findings) || ProvenanceFinds(meta, expected, reason)
  {
    if meta.orbit.None? || meta.orbit.value.task != Some(expected.task) {
      report.Fail(OrbitTaskMismatch);
    }
    if meta.orbit.None? || meta.orbit.value.run != Some(expected.run) {
      report.Fail(OrbitRunMismatch);
    }
  }

  /** The declared inputs whose bytes are not in the checkout, in order. */
  function Unverified(rules: Rules, data: map<string, DataFile>, inputs: seq<Input>): seq<string> {
    if inputs == [] then []
    else
      var front := Unverified(rules, data, inputs[..|inputs| - 1]);
      var input := inputs[|inputs| - 1];
      if Declares(input) && rules.inside(input.name.value) && input.name.value !in data then front + [input.name.value]
      else front
  }

  /** What evidence the report keeps: the digest of every local input that was read. */
  predicate Digested(rules: Rules, data: map<string, DataFile>, inputs: seq<Input>, digests: map<string, string>) {
    && (forall name | name in digests ::
          name in data && data[name].Bytes? && digests[name] == rules.sha256(data[name].bytes))
    && (forall input | input in inputs && Declares(input) && rules.inside(input.name.value) ::
          input.name.value in data && data[input.name.value].Bytes? ==> input.name.value in digests)
  }

  // ---- What the manifest check means, field by field -------------------------

  /** Every input with a name and a digest that is not shared stays inside, and reads with that
      digest, whatever its case, and the declared size, where its file is there. */
  predicate LocalsMatch(rules: Rules, data: map<string, DataFile>, inputs: seq<Input>) {
    forall input | input in inputs && input.name.Some? && input.digest.Some? && !input.shared ::
      && rules.inside(input.name.value)
      && (input.name.value in data ==> ReadsAs(rules, data[input.name.value], input.digest.value, input.size))
  }

  predicate ReadsAs(rules: Rules, file: DataFile, digest: string, size: Option<nat>) {
    && file.Bytes?
    && EqualIgnoringCase(rules.sha256(file.bytes), digest)
    && (size.Some? ==> |file.bytes| == size.value)
  }

  /** What the report accounts for: the digest of every such input whose file is there, and the
      name of every one whose file is not. */
  predicate Accounts(rules: Rules, data: map<string, DataFile>, inputs: seq<Input>,
                     digests: map<string, string>, unverified: seq<string>)
  {
    && (forall input | input in inputs && input.name.Some? && input.digest.Some? && !input.shared
                       && rules.inside(input.name.value) ::
          if input.name.value !in data then input.name.value in unverified
          else data[input.name.value].Bytes? ==>
                 input.name.value in digests
                 && digests[input.name.value] == rules.sha256(data[input.name.value].bytes))
    && (forall name | name in digests ::
          name in data && data[name].Bytes? && digests[name] == rules.sha256(data[name].bytes))
    && (forall name | name in unverified ::
          && name !in data && rules.inside(name)
          && exists input :: input in inputs && input.name == Some(name) && input.digest.Some? && !input.shared)
  }

  lemma ManifestOkIff(c: Checkout, rules: Rules, path: Path)
    requires path.RecordFile?
    ensures ManifestOk(c, rules, path) <==>
            && Manifest(path.id, path.slug) in c.work
            && rules.manifest(c.work[Manifest(path.id, path.slug)]).Some?
            && LocalsMatch(rules, c.data, rules.manifest(c.work[Manifest(path.id, path.slug)]).value)
  {
    hide EqualIgnoringCase;
    if Inputs(c, rules, path).Some? {
      forall input | input in Inputs(c, rules, path).value
        ensures InputOk(rules, c.data, input) <==>
                (input.name.Some? && input.digest.Some? && !input.shared ==>
                   && rules.inside(input.name.value)
                   && (input.name.value in c.data ==>
                         ReadsAs(rules, c.data[input.name.value], input.digest.value, input.size)))
      {
      }
    }
  }

  lemma {:induction false} UnverifiedAre(rules: Rules, data: map<string, DataFile>, inputs: seq<Input>, name: string)
    ensures name in Unverified(rules, data, inputs) <==>
            && name !in data && rules.inside(name)
            && exists input :: input in inputs && input.name == Some(name) && input.digest.Some? && !input.shared
  {
    if inputs != [] {
      var front, last := inputs[..|inputs| - 1], inputs[|inputs| - 1];
      assert inputs == front + [last];
      UnverifiedAre(rules, data, front, name);
    }
  }

  lemma DigestedAccounts(rules: Rules, data: map<string, DataFile>, inputs: seq<Input>, digests: map<string, string>)
    requires Digested(rules, data, inputs, digests)
    ensures Accounts(rules, data, inputs, digests, Unverified(rules, data, inputs))
  {
    hide Unverified;
    forall name ensures name in Unverified(rules, data, inputs) <==>
                        && name !in data && rules.inside(name)
                        && exists input :: input in inputs && input.name == Some(name)
                                           && input.digest.Some? && !input.shared
    {
      UnverifiedAre(rules, data, inputs, name);
    }
  }

  /** The names come in the order of their inputs. */
  lemma {:induction false} UnverifiedInOrder(rules: Rules, data: map<string, DataFile>, a: seq<Input>, b: seq<Input>)
    ensures Unverified(rules, data, a + b) == Unverified(rules, data, a) + Unverified(rules, data, b)
  {
    if b == [] {
      assert a + b == a;
    } else {
      assert (a + b)[..|a + b| - 1] == a + b[..|b| - 1];
      UnverifiedInOrder(rules, data, a, b[..|b| - 1]);
    }
  }

  predicate Ignored(input: Input) {
    input.shared || input.name.None? || input.digest.None?
  }

  /** A shared input, and one without a name or a digest, changes nothing about the answer. */
  lemma IgnoredInputIsNothing(c: Checkout, expected: Expected, rules: Rules, other: Rules, path: Path,
                              a: seq<Input>, input: Input, b: seq<Input>)
    requires Ignored(input) && other == rules.(manifest := other.manifest)
    requires Present(c, expected) && RecordsOf(c.head)[DeliveredId(c, expected).value].path == path
    requires Manifest(path.id, path.slug) in c.work
    requires rules.manifest(c.work[Manifest(path.id, path.slug)]) == Some(a + [input] + b)
    requires other.manifest(c.work[Manifest(path.id, path.slug)]) == Some(a + b)
    ensures Deliverable(c, expected, rules) <==> Deliverable(c, expected, other)
    ensures Unverified(rules, c.data, a + [input] + b) == Unverified(other, c.data, a + b)
    ensures forall digests ::
              Accounts(rules, c.data, a + [input] + b, digests, Unverified(rules, c.data, a + [input] + b))
              <==> Accounts(other, c.data, a + b, digests, Unverified(other, c.data, a + b))
  {
    hide RecordsOf, Written, Decodes, ScopeOk, ManifestOk, LocalsMatch, Accounts, Readable, ProvenanceOk, Unverified;
    ManifestOkIff(c, rules, path);
    ManifestOkIff(c, other, path);
    assert forall i :: i in a + [input] + b <==> i in a + b || i == input;
    OneMoreIgnored(rules, other, c.data, a + [input] + b, a + b, input, map[], []);
    forall digests, unverified
      ensures Accounts(rules, c.data, a + [input] + b, digests, unverified)
              <==> Accounts(other, c.data, a + b, digests, unverified)
    {
      OneMoreIgnored(rules, other, c.data, a + [input] + b, a + b, input, digests, unverified);
    }
    UnverifiedInOrder(rules, c.data, a + [input], b);
    UnverifiedInOrder(rules, c.data, a, [input]);
    UnverifiedInOrder(rules, c.data, a, b);
    NothingUnverified(rules, c.data, input);
    SameUnverified(rules, other, c.data, a + b);
  }

  lemma OneMoreIgnored(rules: Rules, other: Rules, data: map<string, DataFile>, more: seq<Input>, inputs: seq<Input>,
                       input: Input, digests: map<string, string>, unverified: seq<string>)
    requires Ignored(input) && forall i :: i in more <==> i in inputs || i == input
    requires other.inside == rules.inside && other.sha256 == rules.sha256
    ensures LocalsMatch(rules, data, more) <==> LocalsMatch(other, data, inputs)
    ensures Accounts(rules, data, more, digests, unverified) <==> Accounts(other, data, inputs, digests, unverified)
  {
    hide EqualIgnoringCase;
    assert forall i :: i in more && i.name.Some? && i.digest.Some? && !i.shared ==> i in inputs;
  }

  lemma NothingUnverified(rules: Rules, data: map<string, DataFile>, input: Input)
    requires Ignored(input)
    ensures Unverified(rules, data, [input]) == []
  {
  }

  lemma {:induction false} SameUnverified(rules: Rules, other: Rules, data: map<string, DataFile>, inputs: seq<Input>)
    requires other.inside == rules.inside
    ensures Unverified(other, data, inputs) == Unverified(rules, data, inputs)
  {
    if inputs != [] {
      SameUnverified(rules, other, data, inputs[..|inputs| - 1]);
    }
  }

  lemma ManifestFindsIs(c: Checkout, rules: Rules, path: Path)
    requires path.RecordFile?
    ensures forall reason ::
              ManifestFinds(c, rules, path, reason) <==>
              if Inputs(c, rules, path).None? then reason == ManifestInvalid
              else InputFinds(rules, c.data, Inputs(c, rules, path).value, reason)
  {
    hide InputFinds;
  }

  lemma NoInputFinds(rules: Rules, data: map<string, DataFile>)
    ensures forall reason :: !InputFinds(rules, data, [], reason)
    ensures Digested(rules, data, [], map[])
  {
  }

  lemma DigestedMore(rules: Rules, data: map<string, DataFile>, inputs: seq<Input>, i: nat,
                     before: map<string, string>, after: map<string, string>)
    requires i < |inputs| && Digested(rules, data, inputs[..i], before)
    requires var input := inputs[i];
             after == if Declares(input) && rules.inside(input.name.value)
                         && input.name.value in data && data[input.name.value].Bytes?
                      then before[input.name.value := rules.sha256(data[input.name.value].bytes)] else before
    ensures Digested(rules, data, inputs[..i + 1], after)
  {
    assert inputs[..i + 1] == inputs[..i] + [inputs[i]];
  }

  lemma OneMoreInput(rules: Rules, data: map<string, DataFile>, inputs: seq<Input>, i: nat)
    requires i < |inputs|
    ensures forall reason ::
              InputFinds(rules, data, inputs[..i + 1], reason) <==>
              || InputFinds(rules, data, inputs[..i], reason)
              || (reason == ManifestInvalid && Unfit(rules, data, inputs[i]))
              || (reason == ArtifactDigestMismatch && Differs(rules, data, inputs[i]))
    ensures !Declares(inputs[i]) ==>
              && !Unfit(rules, data, inputs[i]) && !Differs(rules, data, inputs[i]) && InputOk(rules, data, inputs[i])
              && Unverified(rules, data, inputs[..i + 1]) == Unverified(rules, data, inputs[..i])
  {
    hide ReadsAs;
    assert inputs[..i + 1] == inputs[..i] + [inputs[i]] && inputs[..i + 1][..i] == inputs[..i];
  }

  /** What was found in some inputs. */
  ghost predicate Tells(rules: Rules, data: map<string, DataFile>, inputs: seq<Input>,
                        before: seq<Reason>, after: seq<Reason>)
  {
    forall reason :: reason in after <==> reason in before || InputFinds(rules, data, inputs, reason)
  }

  lemma TellsMore(rules: Rules, data: map<string, DataFile>, inputs: seq<Input>, i: nat,
                  before: seq<Reason>, mid: seq<Reason>, after: seq<Reason>)
    requires i < |inputs| && Tells(rules, data, inputs[..i], before, mid)
    requires forall reason ::
               reason in after <==>
               || reason in mid
               || (Declares(inputs[i])
                   && ((reason == ManifestInvalid && Unfit(rules, data, inputs[i]))
                       || (reason == ArtifactDigestMismatch && Differs(rules, data, inputs[i]))))
    ensures Tells(rules, data, inputs[..i + 1], before, after)
  {
    hide InputFinds, Unfit, Differs, Declares;
    OneMoreInput(rules, data, inputs, i);
  }

  lemma TellsNothing(rules: Rules, data: map<string, DataFile>, before: seq<Reason>)
    ensures Tells(rules, data, [], before, before)
  {
    hide InputFinds;
    NoInputFinds(rules, data);
  }

  lemma TellsManifest(c: Checkout, rules: Rules, path: Path, before: seq<Reason>, after: seq<Reason>)
    requires path.RecordFile?
    requires if Inputs(c, rules, path).None? then after == before + [ManifestInvalid]
             else Tells(rules, c.data, Inputs(c, rules, path).value, before, after)
    ensures forall reason :: reason in after <==> reason in before || ManifestFinds(c, rules, path, reason)
  {
    hide InputFinds, ManifestFinds, Inputs;
    ManifestFindsIs(c, rules, path);
  }

  method CheckManifest(report: DeliveryReport, c: Checkout, rules: Rules, path: Path)
    requires path.RecordFile? && report.unverified == [] && report.digests == map[]
    modifies report`findings, report`unverified, report`digests
    ensures old(report.findings) <= report.findings
    ensures report.findings == old(report.findings) <==> ManifestOk(c, rules, path)
    ensures report.findings == old(report.findings) <==>
            && Manifest(path.id, path.slug) in c.work
            && rules.manifest(c.work[Manifest(path.id, path.slug)]).Some?
            && LocalsMatch(rules, c.data, rules.manifest(c.work[Manifest(path.id, path.slug)]).value)
    ensures Inputs(c, rules, path).Some? ==>
              && report.unverified == Unverified(rules, c.data, Inputs(c, rules, path).value)
              && Accounts(rules, c.data, Inputs(c, rules, path).value, report.digests, report.unverified)
    ensures forall reason ::
              reason in report.findings <==> reason in old(report.findings) || ManifestFinds(c, rules, path, reason)
  {
    hide EqualIgnoringCase, LocalsMatch, Accounts, Tells, Unfit, Differs, ManifestFinds, InputOk, Digested;
    ManifestOkIff(c, rules, path);
    var read := Inputs(c, rules, path);
    if read.None? {
      report.Fail(ManifestInvalid);
      TellsManifest(c, rules, path, old(report.findings), report.findings);
      return;
    }
    var inputs := read.value;
    NoInputFinds(rules, c.data);
    TellsNothing(rules, c.data, report.findings);
    for i := 0 to |inputs|
      invariant old(report.findings) <= report.findings
      invariant report.findings == old(report.findings) <==>
                forall j :: 0 <= j < i ==> InputOk(rules, c.data, inputs[j])
      invariant report.unverified == Unverified(rules, c.data, inputs[..i])
      invariant Digested(rules, c.data, inputs[..i], report.digests)
      invariant Tells(rules, c.data, inputs[..i], old(report.findings), report.findings)
    {
      OneMoreInput(rules, c.data, inputs, i);
      assert inputs[..i + 1][..i] == inputs[..i];
      var input := inputs[i];
      ghost var digests, findings := report.digests, report.findings;
      if Declares(input) {
        CheckInput(report, c, rules, input);
      }
      DigestedMore(rules, c.data, inputs, i, digests, report.digests);
      TellsMore(rules, c.data, inputs, i, old(report.findings), findings, report.findings);
    }
    assert inputs[..|inputs|] == inputs;
    TellsManifest(c, rules, path, old(report.findings), report.findings);
    DigestedAccounts(rules, c.data, inputs, report.digests);
  }

  method CheckInput(report: DeliveryReport, c: Checkout, rules: Rules, input: Input)
    requires Declares(input)
    modifies report`findings, report`unverified, report`digests
    ensures old(report.findings) <= report.findings
    ensures report.findings == old(report.findings) <==> InputOk(rules, c.data, input)
    ensures var name := input.name.value;
            && report.unverified == old(report.unverified)
                 + (if rules.inside(name) && name !in c.data then [name] else [])
            && report.digests == (if rules.inside(name) && name in c.data && c.data[name].Bytes?
                                  then old(report.digests)[name := rules.sha256(c.data[name].bytes)]
                                  else old(report.digests))
    ensures forall reason ::
              reason in report.findings <==>
              || reason in old(report.findings)
              || (reason == ManifestInvalid && Unfit(rules, c.data, input))
              || (reason == ArtifactDigestMismatch && Differs(rules, c.data, input))
  {
    hide EqualIgnoringCase;
    var name := input.name.value;
    if !rules.inside(name) {
      report.Fail(ManifestInvalid);
    } else if name !in c.data {
      report.unverified := report.unverified + [name];
    } else if c.data[name].Unreadable? {
      report.Fail(ManifestInvalid);
    } else {
      var bytes := c.data[name].bytes;
      var actual := rules.sha256(bytes);
      report.digests := report.digests[name := actual];
      if !EqualIgnoringCase(actual, input.digest.value) {
        report.Fail(ArtifactDigestMismatch);
      } else if input.size.Some? && input.size.value != |bytes| {
        report.Fail(ArtifactDigestMismatch);
      }
    }
  }

  /** Every reference names a record the checkout has. */
  predicate NoneDangling(meta: Metadata, references: seq<Field>, ids: set<RecordId>) {
    forall f :: 0 <= f < |references| ==> forall t | t in Targets(meta, references[f]) :: t in ids
  }

  /** Only `reason` is added, any number of times. */
  predicate OnlyAdds(before: seq<Reason>, after: seq<Reason>, reason: Reason) {
    before <= after && forall other :: other in after <==> other in before || (other == reason && after != before)
  }

  /** A reference dangles when it names no entry. */
  lemma DanglingIs(meta: Metadata, references: seq<Field>, work: Tree)
    ensures forall reason ::
              LineageFinds(meta, references, work, reason) <==>
              reason == DanglingLineage && !NoneDangling(meta, references, set p | p in Entries(work) :: p.id)
  {
    hide Targets, Entries;
    var ids := set p | p in Entries(work) :: p.id;
    forall target: RecordId ensures target in ids <==> exists p :: HasEntry(work, p) && p.id == target {
      if target in ids {
        var p :| p in Entries(work) && p.id == target;
        EntriesAre(work, p);
      }
      if p :| HasEntry(work, p) && p.id == target {
        EntriesAre(work, p);
      }
    }
    if !NoneDangling(meta, references, ids) {
      var f, t :| 0 <= f < |references| && t in Targets(meta, references[f]) && t !in ids;
      assert references[f] in references;
    }
    forall field, target | field in references && target in Targets(meta, field) && target !in ids
      ensures !NoneDangling(meta, references, ids) {
      var f :| 0 <= f < |references| && references[f] == field;
    }
  }

  method CheckLineage(report: DeliveryReport, meta: Metadata, references: seq<Field>, entries: set<Path>)
    requires forall p | p in entries :: p.RecordFile?
    modifies report`findings
    ensures old(report.findings) <= report.findings
    ensures report.findings == old(report.findings) <==> NoneDangling(meta, references, set p | p in entries :: p.id)
    ensures forall reason ::
              reason in report.findings <==>
              || reason in old(report.findings)
              || (reason == DanglingLineage && !NoneDangling(meta, references, set p | p in entries :: p.id))
  {
    var ids := set p | p in entries :: p.id;
    for f := 0 to |references|
      invariant OnlyAdds(old(report.findings), report.findings, DanglingLineage)
      invariant report.findings == old(report.findings) <==>
                forall g :: 0 <= g < f ==> forall t | t in Targets(meta, references[g]) :: t in ids
    {
      var targets := Targets(meta, references[f]);
      ghost var before := report.findings;
      for i := 0 to |targets|
        invariant before <= report.findings && OnlyAdds(old(report.findings), report.findings, DanglingLineage)
        invariant report.findings == before <==> forall j :: 0 <= j < i ==> targets[j] in ids
      {
        if targets[i] !in ids {
          report.Fail(DanglingLineage);
        }
      }
    }
  }

  method FailEach(report: DeliveryReport, paths: set<Path>, reason: Reason)
    modifies report`findings
    ensures old(report.findings) <= report.findings
    ensures |report.findings| == |old(report.findings)| + |paths|
    ensures OnlyAdds(old(report.findings), report.findings, reason)
  {
    var todo := paths;
    while todo != {}
      invariant OnlyAdds(old(report.findings), report.findings, reason)
      invariant |report.findings| + |todo| == |old(report.findings)| + |paths|
    {
      var path :| path in todo;
      todo := todo - {path};
      report.Fail(reason);
    }
  }

  lemma ScopeSets(c: Checkout, id: RecordId)
    ensures (exists p :: HasEntry(c.work, p) != (p in c.head && p.RecordFile?)) <==>
            Entries(c.work) != RecordPaths(c.head)
    ensures (exists p :: HasEntry(c.work, p) && p !in c.head) <==> Entries(c.work) - RecordPaths(c.head) != {}
    ensures (exists p :: p in c.head && p.RecordFile? && !HasEntry(c.work, p)) <==>
            RecordPaths(c.head) - Entries(c.work) != {}
    ensures (exists p :: p in c.work && p.RecordFile? && p.id != id && p in c.head && c.work[p] != c.head[p]) <==>
            EditedOthers(c.head, c.work, id) != {}
  {
    var entries, committed := Entries(c.work), RecordPaths(c.head);
    forall p: Path ensures p in entries <==> HasEntry(c.work, p) {
      EntriesAre(c.work, p);
    }
    assert forall p: Path :: p in committed <==> p in c.head && p.RecordFile?;
    assert forall p: Path :: HasEntry(c.work, p) ==> p.RecordFile?;
    hide Entries, RecordPaths, HasEntry;
    assert forall p: Path :: p in entries - committed <==> HasEntry(c.work, p) && p !in c.head;
    assert forall p: Path :: p in committed - entries <==> p in c.head && p.RecordFile? && !HasEntry(c.work, p);
    assert forall p: Path :: p in EditedOthers(c.head, c.work, id) <==>
                             p in c.work && p.RecordFile? && p.id != id && p in c.head && c.work[p] != c.head[p];
  }

  /** Nothing but the research record changed. The whole-corpus rules are the last resort,
      run only while nothing has been found. */
  method CheckScope(report: DeliveryReport, c: Checkout, id: RecordId)
    modifies report`findings
    ensures old(report.findings) <= report.findings
    ensures report.findings == [] <==> old(report.findings) == [] && ScopeOk(c, id)
    ensures forall reason ::
              reason in report.findings <==>
              reason in old(report.findings) || ScopeFinds(c, id, old(report.findings) == [], reason)
  {
    hide WellFormed, Readable, RecordsOf, Entries, RecordPaths, OthersUnchanged, EditedOthers, HasEntry;
    ScopeSets(c, id);
    var entries, committed := Entries(c.work), RecordPaths(c.head);
    FailEach(report, entries - committed, IdAllocated);
    FailEach(report, committed - entries, OtherRecordChanged);
    if entries != committed {
      return;
    }
    if !Readable(c.work) {
      report.Fail(CorpusInvalid);
      return;
    }
    FailEach(report, EditedOthers(c.head, c.work, id), OtherRecordChanged);
    EditedOthersIs(c.head, c.work, id);
    if report.findings == [] {
      var issues := Validation.ValidateRecords(RecordsOf(c.work));
      if issues != [] {
        report.Fail(CorpusInvalid);
      }
    }
  }

  // ---- The gate -------------------------------------------------------------

  lemma NothingFound(findings: seq<Reason>)
    ensures findings == [] <==> forall reason :: reason !in findings
  {
    assert findings != [] ==> findings[0] in findings;
  }

  /** `validate_delivery`: the report has no finding exactly when the checkout is
      deliverable, so every early return carries one; a passing report names the bytes it
      checked and accounts for every declared input. */
  method ValidateDelivery(c: Checkout, expected: Expected, rules: Rules) returns (result: Result<DeliveryReport>)
    ensures result.Success? <==> Sound(c.head)
    ensures result.Success? ==> fresh(result.value)
    ensures result.Success? ==> (result.value.findings == [] <==> Deliverable(c, expected, rules))
    ensures result.Success? ==> forall reason ::
                                  reason in result.value.findings <==> Finds(c, expected, rules, reason)
    ensures result.Success? && result.value.findings == [] ==>
              var report, path := result.value, RecordsOf(c.head)[DeliveredId(c, expected).value].path;
              && report.research == DeliveredId(c, expected) && report.path == Some(path)
              && report.blob == Some(c.work[path])
              && Manifest(path.id, path.slug) in c.work
              && var inputs := rules.manifest(c.work[Manifest(path.id, path.slug)]);
                 && inputs.Some? && LocalsMatch(rules, c.data, inputs.value)
                 && Accounts(rules, c.data, inputs.value, report.digests, report.unverified)
                 && report.unverified == Unverified(rules, c.data, inputs.value)
  {
    hide WellFormed, RecordsOf, Written, Decodes, Accounts, Unverified, LocalsMatch;
    hide ScopeOk, InputOk, ProvenanceOk, Entries, Readable, NoneDangling, ManifestOk;
    hide SectionFinds, ProvenanceFinds, ManifestFinds, ScopeFinds, LineageFinds;
    var ok := Planning.TreeIsSound(c.head);
    if !ok {
      return Failure(Invalid);
    }
    var report := new DeliveryReport();
    var id := DeliveredId(c, expected);
    if id.None? || id.value.kind != Research || id.value !in RecordsOf(c.head) {
      report.Fail(ResearchUnbound);
      return Success(report);
    }
    var path := RecordsOf(c.head)[id.value].path;
    Planning.RecordInItsFile(c.head, id.value);
    report.research, report.path := id, Some(path);
    if path !in c.work {
      report.Fail(RecordInvalid);
      return Success(report);
    }
    var content := c.work[path];
    if !Decodes(path, content) {
      report.Fail(RecordInvalid);
      // Even then the body may be readable, and its sections are looked at too.
      if content.Document? {
        CheckSections(report, rules.wanted, Text.UnixLines(content.raw));
      }
      return Success(report);
    }
    Planning.DocumentIfDecodes(path, content);
    report.blob := Some(content);
    CheckSections(report, rules.wanted, Text.UnixLines(content.raw));
    CheckProvenance(report, content.meta, expected);
    CheckManifest(report, c, rules, path);
    DanglingIs(content.meta, rules.references, c.work);
    CheckLineage(report, content.meta, rules.references, Entries(c.work));
    assert forall reason :: reason in report.findings <==> RecordFinds(c, expected, rules, path, reason);
    NothingFound(report.findings);
    CheckScope(report, c, id.value);
    if ScopeOk(c, id.value) {
      NothingDangles(c, id.value, path, rules.references);
    }
    return Success(report);
  }

  /** A checkout is deliverable exactly when one research record is named or bound, and not two;
      HEAD has it; its README still decodes at its path, holds the wanted sections, and names
      the run; its manifest reads and its local inputs match it; and the records are HEAD's,
      all others byte for byte, in a sound corpus. */
  lemma DeliverableIff(c: Checkout, expected: Expected, rules: Rules)
    ensures Deliverable(c, expected, rules) <==>
            && Readable(c.head) && (expected.research.Some? || c.bound.Some?)
            && (expected.research.Some? && c.bound.Some? ==> expected.research == c.bound)
            && var id := if expected.research.Some? then expected.research.value else c.bound.value;
            && id.kind == Research && id in RecordsOf(c.head)
            && var path := RecordsOf(c.head)[id].path;
            && path.RecordFile? && path in c.work && Decodes(path, c.work[path]) && c.work[path].Document?
            && Written(rules.wanted, Text.UnixLines(c.work[path].raw))
            && c.work[path].meta.orbit == Some(Provenance(Some(expected.task), Some(expected.run)))
            && Manifest(path.id, path.slug) in c.work
            && rules.manifest(c.work[Manifest(path.id, path.slug)]).Some?
            && LocalsMatch(rules, c.data, rules.manifest(c.work[Manifest(path.id, path.slug)]).value)
            && Sound(c.work) && SameRecords(c.head, c.work, id)
  {
    hide RecordsOf, WellFormed, Written, Decodes, LocalsMatch, ManifestOk, Entries, RecordPaths;
    if Present(c, expected) {
      ManifestOkIff(c, rules, RecordsOf(c.head)[DeliveredId(c, expected).value].path);
    }
    if Readable(c.work) {
      EntriesAreRecords(c.work);
      SamePathsIff(c.head, c.work);
    }
  }

  /** The same record files, with the same bytes but for one record's. */
  predicate SameRecords(head: Tree, work: Tree, id: RecordId) {
    && (forall p | p in work && p.RecordFile? :: p in head && (p.id != id ==> work[p] == head[p]))
    && (forall p | p in head && p.RecordFile? :: p in work)
  }

  lemma SamePathsIff(head: Tree, work: Tree)
    ensures RecordPaths(work) == RecordPaths(head) <==>
            && (forall p | p in work && p.RecordFile? :: p in head)
            && (forall p | p in head && p.RecordFile? :: p in work)
  {
    if RecordPaths(work) == RecordPaths(head) {
      forall p | p in work && p.RecordFile? ensures p in head { assert p in RecordPaths(head); }
      forall p | p in head && p.RecordFile? ensures p in work { assert p in RecordPaths(work); }
    }
  }

  /** A well-formed corpus has no dangling reference for the earlier check to find, whatever
      fields the schema lists. */
  lemma NothingDangles(c: Checkout, id: RecordId, path: Path, references: seq<Field>)
    requires ScopeOk(c, id) && path in c.work && path.RecordFile? && c.work[path].Document?
    ensures NoneDangling(c.work[path].meta, references, set p | p in Entries(c.work) :: p.id)
  {
    hide Acyclic, NoGaps, Decodes, RecordsOf, OthersUnchanged;
    var records := RecordsOf(c.work);
    Planning.RecordsAre(c.work);
    var meta := c.work[path].meta;
    assert RefsOk(records, meta);
    var ids := set p | p in Entries(c.work) :: p.id;
    forall f, t | 0 <= f < |references| && t in Targets(meta, references[f]) ensures t in ids {
      var field := references[f];
      Validation.EveryField();
      assert FieldOk(records, meta, field);
      var i :| 0 <= i < |Targets(meta, field)| && Targets(meta, field)[i] == t;
      assert TargetOk(records, field, Targets(meta, field)[i]);
      var p :| p in c.work && p.RecordFile? && p.id == t;
      assert p in Entries(c.work);
    }
  }

  // ---- What a run writes is in scope ----------------------------------------

  lemma EntriesAreRecords(tree: Tree)
    requires Readable(tree)
    ensures Entries(tree) == RecordPaths(tree)
  {
    hide Decodes;
  }

  /** A completed write of a run's reserved record, from a checkout that was HEAD, leaves
      nothing for the scope check to find, so its delivery depends on what it wrote alone:
      the sections, the provenance and the manifest. */
  lemma WriteIsInScope(s: Worktree.State, order: Worktree.Order, answer: Worktree.Answer, t: Worktree.State,
                       data: map<string, DataFile>, task: string, run: string, rules: Rules)
    requires Worktree.Handled(s, order, answer, t) && answer.Written? && s.work == s.head
    ensures var c, expected := Checkout(t.head, t.work, t.bound, data), Expected(None, task, run);
            && ScopeOk(c, order.id) && Present(c, expected) && DeliveredId(c, expected) == Some(order.id)
            && var path := RecordsOf(t.head)[order.id].path;
               (Deliverable(c, expected, rules) <==>
                && Written(rules.wanted, Text.UnixLines(t.work[path].raw))
                && ProvenanceOk(t.work[path].meta, expected) && ManifestOk(c, rules, path))
  {
    hide RecordsOf, WellFormed, Decodes, Entries, RecordPaths, Worktree.EditOk, Lifecycle.Revise, Written;
    hide Writer.Overlay, InputOk, ProvenanceOk, Inputs;
    var record := RecordsOf(s.work)[order.id];
    Planning.RecordInItsFile(s.work, order.id);
    if t.work != s.work {
      Worktree.WrittenIsSound(s, order, t);
      OnlyTheRecordMoves(s, order, answer, t);
    }
    Planning.RecordInItsFile(t.work, order.id);
    assert record.path in t.work && Decodes(record.path, t.work[record.path]);
    Planning.DocumentIfDecodes(record.path, t.work[record.path]);
    EntriesAreRecords(t.work);
  }

  lemma OnlyTheRecordMoves(s: Worktree.State, order: Worktree.Order, answer: Worktree.Answer, t: Worktree.State)
    requires Worktree.Handled(s, order, answer, t) && t.work != s.work && Worktree.Editable(s, order)
    requires RecordsOf(s.work)[order.id].path in t.work
    ensures RecordPaths(t.work) == RecordPaths(s.work) && OthersUnchanged(s.work, t.work, order.id)
  {
    hide RecordsOf, WellFormed, Decodes, Worktree.Handled, Worktree.EditOk, Readable;
    Planning.RecordInItsFile(s.work, order.id);
    forall path: Path | path.RecordFile?
      ensures (path in t.work <==> path in s.work)
              && (path in s.work && path.id != order.id ==> t.work[path] == s.work[path])
    {
      if !Writer.Same(t.work, s.work, path) {
        Worktree.ChangesOverExpectedBytes(s, order, answer, t, path);
      }
    }
  }

  /** A reserved stub is never delivered unwritten, whatever its title and question, when
      the schema wants any of the sections it starts with. */
  lemma StubIsNotDeliverable(c: Checkout, expected: Expected, rules: Rules, title: string, body: string, k: nat)
    requires Present(c, expected) && k < |Scaffold.STUB| && Scaffold.STUB[k].0 in rules.wanted
    requires var id := DeliveredId(c, expected).value;
             && id.number < 1000
             && c.work[RecordsOf(c.head)[id].path].raw == Scaffold.NewBody(id, title, body)
    ensures !Deliverable(c, expected, rules)
  {
    hide Written, ManifestOk, ScopeOk, ProvenanceOk, Decodes, RecordsOf, Scaffold.NewBody;
    StubIsNotWritten(DeliveredId(c, expected).value, title, body, rules.wanted, k);
  }
}
