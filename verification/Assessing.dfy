/** What an assessment may cite (`acceptance.rs`), against what the panel of delivered
    results calls accepted (`panels.rs`). */
module Assessing {
  import opened Basics
  import opened Naming
  import opened Records
  import opened AcceptanceCache
  import opened Panels
  import opened Writer
  import opened Planning
  import opened Checkout
  import Evidence
  import Lifecycle
  import Text

  /** A field of a record's `orbit` entry, when it is there and not blank. */
  function Filled(field: Option<string>): Option<string> {
    if field.Some? && Text.Trim(field.value) != "" then field else None
  }

  function Task(record: Record): Option<string> {
    if record.meta.orbit.Some? then Filled(record.meta.orbit.value.task) else None
  }

  function Run(record: Record): Option<string> {
    if record.meta.orbit.Some? then Filled(record.meta.orbit.value.run) else None
  }

  /** `require_acceptance`: it asks for the artifact of the task as the record spells it. */
  function RequireAcceptance(records: map<RecordId, Record>, research: RecordId,
                             ask: string -> Reply, blobId: Content -> string): Result<()>
  {
    var _ :- Need(research in records && research.kind == Research && research.number < 1000, NotFound);
    var record := records[research];
    var task :- if Task(record).Some? then Success(Task(record).value) else Failure(Refused);
    match ask(task)
    case Found(Readable(acceptance)) =>
      Need(Evidence.Verifies(acceptance, IdText(research), blobId(record.blob)), Refused)
    case _ => Failure(Refused)
  }

  /** A result may be cited exactly when it is a research record that names a task which is not
      blank, and asking for that task's artifact, spelt as it is, gives evidence for exactly
      that record and its README. */
  lemma RequireAcceptanceIff(records: map<RecordId, Record>, research: RecordId,
                             ask: string -> Reply, blobId: Content -> string)
    ensures RequireAcceptance(records, research, ask, blobId).Success? <==>
            && research in records && research.kind == Research && research.number < 1000
            && records[research].meta.orbit.Some? && records[research].meta.orbit.value.task.Some?
            && var task := records[research].meta.orbit.value.task.value;
            && Text.Trim(task) != "" && ask(task).Found? && ask(task).artifact.Readable?
            && ask(task).artifact.acceptance.research == IdText(research)
            && ask(task).artifact.acceptance.blob == blobId(records[research].blob)
  {
    hide Text.Trim, IdText;
  }

  /** The panel's item of a delivered result, its task trimmed. */
  function Delivered(record: Record, blobId: Content -> string): Option<Item>
    requires record.meta.id.number < 1000
  {
    if Task(record).Some? && Run(record).Some?
    then Some(Item(IdText(record.meta.id), Text.Trim(Task(record).value), blobId(record.blob)))
    else None
  }

  /** A result is delivered when its record names a task and a run, neither of them blank. */
  lemma DeliveredIff(record: Record, blobId: Content -> string)
    requires record.meta.id.number < 1000
    ensures var orbit, item := record.meta.orbit, Delivered(record, blobId);
            && (item.Some? <==>
                && orbit.Some? && orbit.value.task.Some? && orbit.value.run.Some?
                && Text.Trim(orbit.value.task.value) != "" && Text.Trim(orbit.value.run.value) != "")
            && (item.Some? ==>
                  && item.value.research == IdText(record.meta.id)
                  && item.value.task == Text.Trim(orbit.value.task.value)
                  && item.value.blob == blobId(record.blob))
  {
    hide Text.Trim, IdText;
  }

  function Asking(artifacts: map<string, Artifact>): string -> Reply {
    task => Live(artifacts, task)
  }

  /** The panel shows no row for the result exactly when an assessment may cite it. */
  predicate BarsAgree(records: map<RecordId, Record>, id: RecordId, artifacts: map<string, Artifact>,
                      blobId: Content -> string)
    requires id in records && records[id].meta.id.number < 1000 && Delivered(records[id], blobId).Some?
  {
    var item := Delivered(records[id], blobId).value;
    AskedRow(item, Live(artifacts, item.task)).None? <==>
    RequireAcceptance(records, id, Asking(artifacts), blobId).Success?
  }

  /** The bar is meant to be one, so that panel and assessment cannot disagree. Whatever the
      tasks store, they agree on a delivered result exactly when its record spells the task
      without white space around it: the panel trims the task it asks about, and the
      assessment does not. */
  lemma BarsAgreeIff(records: map<RecordId, Record>, id: RecordId, blobId: Content -> string)
    requires id in records && id.kind == Research && id.number < 1000 && records[id].meta.id == id
    requires Delivered(records[id], blobId).Some?
    ensures (forall artifacts :: BarsAgree(records, id, artifacts, blobId)) <==>
            Text.Trim(Task(records[id]).value) == Task(records[id]).value
  {
    hide Text.Trim, IdText;
    var task := Task(records[id]).value;
    var item := Delivered(records[id], blobId).value;
    if item.task == task {
      forall artifacts ensures BarsAgree(records, id, artifacts, blobId) {
        NoRowIsAccepted(item, Live(artifacts, task));
      }
    } else {
      var good := Evidence.Acceptance(item.research, "", item.blob, "", map[]);
      var artifacts := map[item.task := Readable(good)];
      assert Live(artifacts, item.task) == Found(Readable(good)) && Live(artifacts, task) == Missing;
      assert Asking(artifacts)(task) == Missing;
      assert !BarsAgree(records, id, artifacts, blobId);
    }
  }

  /** What an assessment cites is a record whose task stores evidence for exactly its README. */
  predicate Cites(tree: Tree, request: Request, ask: string -> Reply, blobId: Content -> string)
    requires request.Assess?
  {
    && Records.Readable(tree)
    && var records, cited := RecordsOf(tree), request.verdict.research;
    && cited in records && cited.number < 1000
    && Task(records[cited]).Some?
    && var task := Task(records[cited]).value;
    Panels.Accepts(ask(task), Item(IdText(cited), task, blobId(records[cited].blob)))
  }

  /** `assess`: the rewrite that appends a verdict, under the host's answer. A verdict not
      asked before is refused exactly when the rewrite is not allowed anyway or what it
      cites is not accepted. */
  method Assess(checkout: PrimaryCheckout, request: Request, verdictStatus: map<string, string>,
                ask: string -> Reply, blobId: Content -> string, today: string)
    returns (outcome: Outcome)
    requires checkout.Valid() && request.Assess?
    modifies checkout
    ensures checkout.Valid() && old(checkout.State()).chain != []
    ensures Serviced(old(checkout.State()), RewriteKey(request), request, outcome, checkout.State())
    ensures RewriteKey(request) !in old(checkout.intents) ==>
              (outcome.Rejected? <==>
               !(Rewritable(old(checkout.State()), request, verdictStatus, true, today)
                 && Cites(old(checkout.work), request, ask, blobId)))
    ensures RewriteKey(request) !in old(checkout.intents) && !outcome.Rejected? ==>
              && RewriteKey(request) in checkout.intents
              && PlansRewrite(old(checkout.State()), request, verdictStatus, today,
                              checkout.intents[RewriteKey(request)])
    ensures !checkout.killable ==> !outcome.Crashed?
  {
    hide Records.Readable, RecordsOf, Rewritable, Serviced, Cites, RequireAcceptance, Writer.Inv;
    hide PlansRewrite;
    var accepted := false;
    if Records.Readable(checkout.work) {
      accepted := RequireAcceptance(RecordsOf(checkout.work), request.verdict.research, ask, blobId).Success?;
    }
    outcome := checkout.Rewrite(request, verdictStatus, accepted, today);
    AssessmentCitesEvidence(old(checkout.State()), request, verdictStatus, today, accepted, ask, blobId);
  }

  lemma AssessmentCitesEvidence(s: Repo, request: Request, verdictStatus: map<string, string>, today: string,
                                accepted: bool, ask: string -> Reply, blobId: Content -> string)
    requires s.chain != [] && request.Assess?
    requires Records.Readable(s.work) ==>
               accepted == RequireAcceptance(RecordsOf(s.work), request.verdict.research, ask, blobId).Success?
    ensures Rewritable(s, request, verdictStatus, accepted, today) <==>
            Rewritable(s, request, verdictStatus, true, today) && Cites(s.work, request, ask, blobId)
  {
    hide RecordsOf, WellFormed, Text.Trim, IdText, Records.Readable, Lifecycle.Assess;
    if Sound(s.work) && request.verdict.research in RecordsOf(s.work) {
      RecordInItsFile(s.work, request.verdict.research);
      if request.id in RecordsOf(s.work) {
        AssessCites(RecordsOf(s.work), RecordsOf(s.work)[request.id], request.verdict, verdictStatus, today);
      }
    }
  }

  lemma AssessCites(records: map<RecordId, Record>, record: Record, verdict: Lifecycle.Verdict,
                    verdictStatus: map<string, string>, today: string)
    ensures Lifecycle.Assess(records, record, verdict, verdictStatus, today).Success? ==>
              verdict.research in records && verdict.research.kind == Research
  {
  }
}
