# Orbit Research: verified model

Orbit Research keeps scientific records (questions, hypotheses, theories and research
results) as Markdown files in a Git checkout. This project models the parts of it whose
correctness spans several steps, files or processes, and proves what they promise:

- the primary-mode writer, which allocates ids and commits records under request keys, with
  a crash possible after every durable step and edits and commits by others between calls;
- worktree mode, in which a run writes only its one reserved research record;
- whole-corpus validation, with its depth-first search for derivation cycles;
- the record life cycle, naming, frontmatter text and the calendar;
- the request log and its one-time move, with readers and preparers interleaving;
- linking a record to a task, and recording acceptance evidence, on a host that offers no
  idempotent operation;
- the delivery gate, the acceptance panel with its cache, and the line framing of the MCP
  transport.

`dafny verify dfyconfig.toml` checks everything.

## How it is put together

| files | what they hold |
|---|---|
| `Basics`, `Text`, `Utf8` | results; white space, lines and line endings; text as bytes |
| `Naming`, `Calendar`, `Records` | ids, slugs and file names; dates; trees of files, records and the well-formedness of a corpus |
| `Validation` | the collected whole-corpus checks |
| `Lifecycle`, `Scaffold`, `Frontmatter`, `Sections`, `Markup` | revisions and assessments; new records; the text of a record file; README sections, and what reading them means on the text |
| `Writer`, `Planning`, `Checkout` | the writer's durable state and invariant; why planned writes keep the corpus sound; the writer as a class that drives a checkout step by step |
| `Commits`, `Runs`, `Witnesses` | what commits say of each other; theorems over all runs; concrete runs, some of them failing stronger promises |
| `Worktree` | worktree mode |
| `Migration`, `LogSafety`, `LogProgress` | the request log as a state machine; its invariant and safety; what an undisturbed process gets done |
| `Links`, `Evidence` | the link protocol; acceptance evidence |
| `Delivery`, `Framing` | the delivery gate; line framing |
| `AcceptanceCache`, `Panels`, `PanelRuns` | the cache; one refresh of the panel; refreshes over time |
| `Assessing`, `AssessmentRuns` | what an assessment may cite; assessments over time |

In the class of `Checkout` and that of `Worktree`, `Dies` after a durable step stands for a
crash there, which only a process that is `killable` can have: the method returns `Crashed`
(or `Interrupted`) with the state as it is, and every `ensures` covers that state too. A
caller retries by calling again. `Writer.Serviced`
is the relation between the states before and after one call; `Runs` composes such calls
with edits and commits by anyone else. Git is an append-only chain of commits, an index and
a working tree; blob ids and digests are injective, so bytes stand for their own blob. A record file is its
frontmatter, the text after it byte for byte, and how the frontmatter is written; reading it
converts line endings, as `Frontmatter.ParseOfRender` shows on the text itself.

## Results that are not what the code or its documentation suggests

- Ids are not unique over all histories. `Commits.ReceiptsShareIdOnlyIfDropped` says when an
  id can be given twice, `Commits.PlansShareIdIff` says exactly when two plans share one, and
  `Witnesses.RepeatedId` is a run in which it happens.
- Two rewrites of one record that expect the same bytes can both be committed, when the bytes
  are put back in between: `Commits.NoLostUpdate` and `Witnesses.RestoredBytesTakeBoth`. Exactly
  the rewrites that are `Planning.Rewritable` are planned (`Checkout.PrimaryCheckout.Rewrite`), and
  after the first commit that takes the bytes back (`Witnesses.ReplannedOnlyIfRestored`).
- A call killed in the middle of writing a file can be retried, but the temporary file it
  leaves makes `crates/orbit-research-store/src/writer.rs:394` refuse every new request until someone removes it:
  `Runs.StrayBlocksNewRequests`, with an instance in `Witnesses.StrayOutlivesRetry`.
- `crates/orbit-research-store/src/edit.rs:96-99` compares bodies before their line endings are converted and stores them after, so
  a hypothesis's revision does not always tell whether its statement changed:
  `Lifecycle.RevisionTellsStatement` gives the exact condition and
  `Lifecycle.CarriageReturnsRestate` the failing family.
- `crates/orbit-research-store/src/worktree.rs:99` says that an identical retry adopts its own bytes. It does exactly when all
  files were written, the edit settles and the UTC date is still that of the write, because
  every revision writes its date (`Worktree.RetryIsAdopted`, `Lifecycle.RevisingAgain`). No write
  that changes a record can be retried on another day (`Worktree.RetryOnAnotherDayIsRefused`). Even
  on the same day a call cut short between the record and its manifest cannot be retried
  (`Worktree.CutBetweenFilesIsRefused`), nor can a completed one whose body opens with the
  heading it replaces (`Lifecycle.OldHeadingUnsettles`).
- `crates/orbit-research-store/src/writer.rs:602-615` recovers a request's commit only while it is HEAD. When a call dies
  after saving its plan and any other commit comes before its receipt, the request is refused
  for good, even if its own commit is in history: `Witnesses.RefusedForGoodIff` says exactly when,
  `Runs.StrandedIffOvertaken` how it comes about, and `Witnesses.OvertakenIsStranded` is a run.
- Preparation (`crates/orbit-research-store/src/request_log_layout.rs`) can be run again after a crash exactly when the crash left no
  temporary file beside the entries (`LogSafety.RerunCompletes`); a save can leave one
  (`LogProgress.CutSaveStops`).
- `crates/orbit-research-cli/src/panels.rs:480` says that the cache can never invent a row. It can, when reads fail:
  `Panels.InventedIff` says for which results and `Panels.CacheInventsARow` is an instance.
- `crates/orbit-research-cli/src/acceptance_cache.rs:3` relies on evidence never being overwritten. A task's evidence is
  safe exactly while every call about to write it carries the same (`Evidence.EvidenceStaysIff`),
  as from the start when calls do not overlap (`Evidence.EvidenceIsWriteOnce`); it is lost in
  `Evidence.RacingAcceptsOverwrite`. What the cache says of a result stays right exactly as
  `PanelRuns.AcceptedForGoodIff` says, and goes wrong in `PanelRuns.RacedCacheHides`.
- `crates/orbit-research-core/src/application/acceptance.rs:37-39` says that panel and assessment cannot disagree. They can,
  because only the panel trims the task's name: `Assessing.BarsAgreeIff`.

## Model

| member | source | states |
|---|---|---|
| Checkout.PrimaryCheckout.ApplyFiles | crates/orbit-research-store/src/writer.rs:495-544 | Refused exactly when some destination holds neither nothing-expected, the expected bytes nor the new ones, and then nothing is changed; otherwise the first files of the plan are written, all of them unless it crashed, and only a crash leaves a temporary file |
| Checkout.PrimaryCheckout.CheckStaged | crates/orbit-research-store/src/writer.rs:575-600 | Accepts exactly when every path staged against HEAD is one of the plan's files and holds its new or its expected bytes |
| Checkout.PrimaryCheckout.CommitFiles | crates/orbit-research-store/src/writer.rs:546-573 | A commit's tree is HEAD's tree with exactly the plan's files replaced, carries the key, and is made only if something changes; a refusal leaves history alone |
| Checkout.PrimaryCheckout.RecoverCommit | crates/orbit-research-store/src/writer.rs:602-627 | Accepts exactly when HEAD carries the key on the plan's parent, changes only the plan's files and holds their text |
| Checkout.PrimaryCheckout.VerifyFiles | crates/orbit-research-store/src/writer.rs:629-639 | Accepts exactly when the commit holds every file's text |
| Checkout.PrimaryCheckout.ReachCommit | crates/orbit-research-store/src/writer.rs:467-475 | Ends, unless refused or crashed, at a HEAD that holds the plan's files: the key's own commit or the parent itself; it adds at most that commit and touches no other plan; unless it crashes it succeeds exactly when the plan is finishable |
| Checkout.PrimaryCheckout.Finish | crates/orbit-research-store/src/writer.rs:458-493 | A saved receipt is replayed, marked so, with nothing changed; otherwise the answer is the receipt just stored; plans and receipts never change; where the process cannot be killed it is answered exactly when the plan is finishable and refused otherwise; a resumable plan stays resumable through any crash |
| Checkout.PrimaryCheckout.AllocateId | crates/orbit-research-store/src/writer.rs:116-136 | Succeeds exactly on a clean, sound checkout that holds all predecessors and has an id of the kind left, and gives the number after the highest |
| Checkout.PrimaryCheckout.Reserve | crates/orbit-research-store/src/writer.rs:83-155 | A fresh key is refused exactly when it is not 1 to 256 bytes, the title is blank or no id can be allocated, and then nothing changes; else its plan takes the next number and holds a new document of the trimmed request: its title, tags, predecessors and day, the status its kind starts with, and its body under its kind's first heading; a used key serves only its own request; only a process that can be killed crashes |
| Checkout.PrimaryCheckout.Rewrite | crates/orbit-research-store/src/writer.rs:160-339 | A rewrite not asked before is refused exactly when its title is blank, the checkout is not clean and sound, the record or its expected bytes are not there, it does not render, or the corpus with it is not well formed; else its plan is for the record that held the expected bytes, and its text writes each field the edit names and keeps every other, or appends the verdict and moves the status exactly when the table does; only a process that can be killed crashes |
| Checkout.PrimaryCheckout.PlanRewrite | crates/orbit-research-store/src/writer.rs:298-334 | Plans exactly the allowed rewrites; the plan replaces the record's bytes by the rendered text and is one the writer can keep |
| Writer.StagingStaysOk | crates/orbit-research-store/src/writer.rs:553-557 | Adding the plan's files cannot break the staged check that passed before |
| Checkout.StagedIsOverlay | crates/orbit-research-store/src/writer.rs:546-573 | An index that passes the staged check and holds the files is HEAD's tree with exactly them replaced |
| Writer.SaveIntentKeepsInv | crates/orbit-research-store/src/writer.rs:450-456 | Saving a fresh plan keeps the writer's invariant |
| Writer.OwnCommitKeepsInv | crates/orbit-research-store/src/writer.rs:546-573 | Committing a plan on its parent keeps the invariant: the commit is attributed to its key and replaces exactly its files |
| Writer.SaveReceiptKeepsInv | crates/orbit-research-store/src/writer.rs:477-492 | Saving the receipt of HEAD keeps the invariant |
| Writer.OtherCommitKeepsInv | crates/orbit-research-store/src/writer.rs:467-471 | A commit by anyone else keeps the invariant |
| Writer.OwnCommitIsRecoverable | crates/orbit-research-store/src/writer.rs:602-627 | In any state the writer can be in, HEAD carrying the key is all that recovery asks for |
| Writer.ResumableApplies | crates/orbit-research-store/src/writer.rs:495-525 | While only the writer has touched the checkout, applying a plan on its parent is not refused, and a crash after any number of files leaves it resumable |
| Writer.NoClobber | crates/orbit-research-store/src/writer.rs:527-544 | A destination changes only where it held nothing and was to be created, or held exactly the bytes to be replaced |
| Writer.OverlayTwice | crates/orbit-research-store/src/writer.rs:495-512 | Writing a plan's files again after a crash part way gives what writing them once gives |
| Runs.RunKeepsInv | crates/orbit-research-store/src/writer.rs:458-493 | The invariant holds in every state of every run of calls, crashes, retries, edits and other commits |
| Commits.OneCommitPerKey | crates/orbit-research-store/src/writer.rs:558-571 | At most one commit ever carries a key; once the receipt is saved it is the commit the receipt names, and there is none exactly when the receipt says nothing changed |
| Runs.AnswersAgree | crates/orbit-research-store/src/writer.rs:458-493 | Exactly once across crashes: all answers under a key name one record, path and commit, and no later state holds another commit with that key |
| Runs.RetriesAreNotRefused | crates/orbit-research-store/src/writer.rs:458-493 | Once a request is planned, its retries are never refused while nothing but its own calls changes HEAD, the index or the working tree before its receipt is saved, however often they crash and whatever calls under other keys come to nothing |
| Runs.RetryAmongOthersIff | crates/orbit-research-store/src/writer.rs:458-476 | In any run of calls under any keys, edits and commits, a retry that does not crash is answered exactly when its receipt is saved, or nobody else has committed since it was planned and, where its own commit has not come either, every destination accepts its file, the corpus with them is sound and nothing else is staged |
| Runs.StrandedIffOvertaken | crates/orbit-research-store/src/writer.rs:465-471 | While a plan has no receipt, it is stranded exactly when somebody else's commit, or the writer's under another key, came after it was planned |
| Runs.StrandedForGood | crates/orbit-research-store/src/writer.rs:602-615 | Once stranded, a plan stays so, and no later call under its key is ever answered |
| Witnesses.RefusedForGoodIff | crates/orbit-research-store/src/writer.rs:465-475 | From any state the writer can be in, no continuation answers a planned request exactly when it has no receipt and HEAD is neither its plan's parent nor its own commit; otherwise some continuation does |
| Witnesses.OvertakenIsStranded | crates/orbit-research-store/src/writer.rs:473-492 | Any allowed first reservation can be killed between its commit and its receipt; after any commit by anyone its retry is refused for good, although its commit is in history |
| Runs.StrayBlocksNewRequests | crates/orbit-research-store/src/writer.rs:394-400 | After a call is killed in the middle of writing a file, every request under a fresh key is refused, with nothing changed, until someone removes the temporary file, while retries of what is resumable are not refused |
| Witnesses.StrayOutlivesRetry | crates/orbit-research-store/src/writer.rs:718-740 | From any clean, sound corpus any allowed reservation can be killed in the middle of writing; its retry is answered, and the temporary file is still there |
| Runs.EveryHeadIsSound | crates/orbit-research-store/src/writer.rs:472-474 | From a sound corpus, while only the writer commits, every HEAD is sound |
| Runs.CallsDoNotClobber | crates/orbit-research-store/src/writer.rs:495-544 | Over all runs, a call changes a working file only as one of its plan's files and over exactly what that file expects |
| Commits.WriterCommitIsSound | crates/orbit-research-store/src/writer.rs:472-474 | Whatever else is in history, a commit the writer makes is a sound corpus made from a sound one |
| Commits.RewriteReplacesItsBlob | crates/orbit-research-store/src/writer.rs:305-332 | A committed rewrite directly replaces exactly the bytes of its expected blob, in that record's file, by other bytes, and nothing else |
| Commits.NoLostUpdate | crates/orbit-research-store/src/writer.rs:305-311 | Two rewrites of a record that expect the same bytes are both committed only when a commit in between put those bytes back |
| Witnesses.ReplannedOnlyIfRestored | crates/orbit-research-store/src/writer.rs:298-311 | Once a rewrite is committed, another that expects the same bytes can be planned only when some later commit put those bytes back |
| Witnesses.RestoredBytesTakeBoth | crates/orbit-research-store/src/writer.rs:305-338 | From any clean, sound corpus, two allowed rewrites with the same expected bytes are both committed and answered when the bytes are put back in between |
| Commits.ReservationOnlyAdds | crates/orbit-research-store/src/writer.rs:353-372 | A reservation's commit adds a record under an id no record had, and its manifest, and changes no other path |
| Commits.ReservationWrites | crates/orbit-research-store/src/writer.rs:353-372 | What it adds is exactly the planned text and, beside a research record, the manifest without inputs |
| Commits.WriterKeepsRecords | crates/orbit-research-store/src/writer.rs:546-573 | No commit of the writer drops a record |
| Commits.ReservedIdsDiffer | crates/orbit-research-store/src/writer.rs:125-136 | Two committed reservations share an id only if someone else's commit in between removed the first record |
| Commits.PlansShareIdIff | crates/orbit-research-store/src/writer.rs:125-136 | Two plans, finished or abandoned, hold one id exactly when they are of one kind and the later corpus's highest number is one below it |
| Commits.ReservationIsCommitted | crates/orbit-research-store/src/writer.rs:458-493 | A reservation's receipt always names a commit that carries its own key |
| Commits.ReceiptsShareIdOnlyIfDropped | crates/orbit-research-store/src/writer.rs:83-155 | Receipts of two reserve keys share an id only when someone else's commit removed a reserved record |
| Witnesses.RepeatedId | crates/orbit-research-store/src/writer.rs:125-136 | From an empty corpus, any request's id is given again after someone removes its record |
| Witnesses.PlanCompletes | crates/orbit-research-store/src/writer.rs:458-493 | Every plan the writer may save on a clean checkout can be committed and answered in one call |
| Planning.HighestNumber | crates/orbit-research-store/src/writer.rs:125-132 | Finds the largest number of a kind |
| Planning.HighestBelow | crates/orbit-research-store/src/writer.rs:133-135 | With no gaps, a number of the kind is taken exactly up to the highest, so the space is full exactly when 999 is taken |
| Planning.NoGapsIsNumbering | crates/orbit-research-store/src/validation.rs:486-536 | The local no-gap rule holds exactly when the ids of every kind are 1 to some n |
| Planning.NewRecordIsSound | crates/orbit-research-store/src/writer.rs:115-153 | A reservation's files, with the next number and existing predecessors, turn a sound corpus into a sound one |
| Planning.NewRecordKeepsAcyclic | crates/orbit-research-store/src/validation.rs:538-570 | A record that nothing derives from yet closes no derivation cycle |
| Planning.RewriteIsSound | crates/orbit-research-store/src/edit.rs:269-291 | A record's new text keeps the corpus sound exactly when the records with that one replaced are well formed |
| Planning.RenderDecodes | crates/orbit-research-store/src/edit.rs:62-140 | Whatever a rewrite renders still decodes under the record's own file name |
| Planning.RenderWrites | crates/orbit-research-store/src/writer.rs:160-339 | A rewrite renders exactly when it is allowed: a question's revision for questions, another revision for all but research, a verdict by its own rules and on the expected bytes only when accepted; and then the text is what the request asks for, field by field |
| Planning.RewrittenTextWrites | crates/orbit-research-store/src/writer.rs:298-334 | So every accepted rewrite is of a record that holds the expected bytes, and plans what it asks for |
| Planning.NewRecordIsPlanned | crates/orbit-research-store/src/writer.rs:137-151 | The plan of an allowed reservation fits its parent and leaves a sound corpus |
| Worktree.RunWorktree.WriteReserved | crates/orbit-research-store/src/worktree.rs:35-131 | Refused exactly when the edit is not allowed, or the bytes are not the expected ones and the write is not in place; else files are written in order over the expected bytes, and the binding is set only once all are there. When it is answered, the record's file holds every field and the body the edit names and keeps the others, the manifest beside it holds exactly the bytes sent or is as before when none are, no other path has changed, and the files listed are exactly these; only a process that can be killed is interrupted |
| Worktree.RunWorktree.PlanWrite | crates/orbit-research-store/src/worktree.rs:44-81 | Accepts exactly when HEAD reserves the record, no other is bound, the worktree holds it at the same path and the edit gives a well-formed corpus |
| Worktree.AllowedIff | crates/orbit-research-store/src/worktree.rs:35-107 | A call is allowed exactly when HEAD holds the research record as planned or running, no other is bound, the worktree has it at the same path, the edit is allowed and gives a sound corpus, and the record holds the expected bytes or, with its manifest, just what the edit gives today |
| Worktree.ReservationIsStub | crates/orbit-research-store/src/worktree.rs:44-53 | A research record as a reservation writes it is one a run may fill |
| Worktree.OneRecordPerWorktree | crates/orbit-research-store/src/worktree.rs:55-67 | All writes that complete in one worktree, over any run, are of one record |
| Worktree.ChangesOverExpectedBytes | crates/orbit-research-store/src/worktree.rs:96-120 | A call changes only the record's file or its manifest, and only when the record held exactly the expected bytes |
| Worktree.RetryIsAdopted | crates/orbit-research-store/src/worktree.rs:98-107 | After a write that changed the record, the identical retry, on whatever day, is accepted exactly when every file was written, the edit settles and the UTC date is that of the write |
| Worktree.RetryOnAnotherDayIsRefused | crates/orbit-research-store/src/worktree.rs:70-107 | Any allowed edit that changes the record can be written and answered, and its identical retry is then refused on every other day |
| Worktree.CutBetweenFilesIsRefused | crates/orbit-research-store/src/worktree.rs:98-119 | Any allowed edit that changes the record and brings a manifest not yet in place can be cut short between the two, and its identical retry is then refused |
| Worktree.CutShortLeavesUnbound | crates/orbit-research-store/src/worktree.rs:121-123 | A call can be cut short after its last file with the worktree still unbound |
| Validation.CheckNumbering | crates/orbit-research-store/src/validation.rs:486-536 | Reports exactly the first break of each kind whose numbers break, and nothing exactly when none does |
| Validation.FirstBreak | crates/orbit-research-store/src/validation.rs:517-535 | Finds the smallest number of a kind that is 0 or has none right below it, or says that there is none |
| Records.RefsOkIff | crates/orbit-research-store/src/validation.rs:362-456 | The references of a record are in order exactly when every one resolves, questions are answered by hypotheses and research, research tests hypotheses, theories claim hypotheses and supersede theories, and every verdict cites research at a revision there is |
| Records.DecodesIff | crates/orbit-research-store/src/corpus.rs:336-400 | A file decodes exactly when some name of its kind reads as its id and slug, and it is a document of that id whose slug is the declared one, or the title's when none is declared |
| Validation.CheckReferences | crates/orbit-research-store/src/validation.rs:362-456 | Reports each reference that does not resolve or is of the wrong kind and each citation of what is not research or of a revision there is not, exactly these, and so nothing exactly when all are in order |
| Validation.LineageWalk.Check | crates/orbit-research-store/src/validation.rs:538-570 | Terminates, restores the visiting set, and without an issue leaves the record done after all it derives from |
| Validation.OnStackIsOnCycle | crates/orbit-research-store/src/validation.rs:552-558 | Reaching a record still being visited means that it lies on a derivation cycle |
| Validation.OrderedIsAcyclic | crates/orbit-research-store/src/validation.rs:538-570 | When every record can be listed after its parents, there is no cycle |
| Validation.CheckLineage | crates/orbit-research-store/src/validation.rs:457-460 | Reports an issue exactly when the derivation graph has a cycle, and every id reported lies on one |
| Validation.ValidateRecords | crates/orbit-research-store/src/validation.rs:346-466 | Succeeds exactly on a well-formed corpus; reports exactly the first break of each kind and every bad reference and citation, and of derivation cycles some record on one whenever there is one |
| Lifecycle.RetitleHeading | crates/orbit-research-store/src/edit.rs:142-166 | The loop replaces the first non-blank line when it is the old heading and nothing else |
| Lifecycle.HeadingFollowsTitle | crates/orbit-research-store/src/edit.rs:142-166 | A body that opens with its scaffolded heading keeps every other byte when the title changes |
| Lifecycle.RetitledIsHeaded | crates/orbit-research-store/src/edit.rs:142-166 | The first line that is not blank, up to its ending, is replaced exactly when it is the old heading; a blank body stays |
| Lifecycle.RevisionWrites | crates/orbit-research-store/src/edit.rs:62-140 | An edit is accepted exactly when it is allowed, and then each of title, body, tags, status, tests and provenance is the one named, or the one there was: the status of a restated hypothesis apart, which reopens unless dropped or named; the date is the day, and all else stays |
| Lifecycle.EditWrittenOnce | crates/orbit-research-store/src/edit.rs:62-140 | These rules leave no choice: only one text obeys them |
| Lifecycle.ChangeWritesEdit | crates/orbit-research-store/src/edit.rs:62-140 | The same, of every revision as it is read back from its file |
| Lifecycle.RevisionAdvances | crates/orbit-research-store/src/edit.rs:62-140 | A revision keeps path, id, lineage and verdicts, still decodes under the frozen slug, and raises a hypothesis's revision by one exactly when it restates the record |
| Lifecycle.JudgementAdvances | crates/orbit-research-store/src/edit.rs:171-234 | An assessment appends exactly one verdict, with the caller's fields, on a research record, and changes neither title nor body |
| Lifecycle.JudgementAndStatus | crates/orbit-research-store/src/edit.rs:222-230 | An assessment of an older revision leaves the status alone, none leaves `dropped`, and a changed status is the table's |
| Lifecycle.VerdictWrites | crates/orbit-research-store/src/edit.rs:171-234 | A verdict is accepted exactly when it is allowed, and then its entry is appended with the day and a trimmed note, none if that is blank; the status moves to the table's exactly when the verdict is on the current revision of a hypothesis not dropped and the table names it; all else stays |
| Lifecycle.JudgementMovesStatus | crates/orbit-research-store/src/edit.rs:222-230 | The same, of every assessment as it is read back from its file |
| Lifecycle.RevisionAndStatus | crates/orbit-research-store/src/edit.rs:107-121 | Restating reopens a hypothesis unless the edit names a status or it was dropped |
| Lifecycle.EmptyEditKeeps | crates/orbit-research-store/src/edit.rs:12-26 | An edit that names nothing changes only the date |
| Lifecycle.RevisionTellsStatement | crates/orbit-research-store/src/edit.rs:96-115 | Whether the revision rises is whether the statement read back differs, exactly when the edit's title is a new one or the line endings agree |
| Lifecycle.CarriageReturnsRestate | crates/orbit-research-store/src/edit.rs:96-115 | A statement sent back with carriage returns raises the revision although the record reads back the same |
| Lifecycle.RevisingAgain | crates/orbit-research-store/src/edit.rs:62-140 | The same edit of the research record it produced, on whatever day, gives the same bytes exactly when it settles and the day is the same |
| Lifecycle.OldHeadingUnsettles | crates/orbit-research-store/src/edit.rs:130-140 | An edit that renames a record and sends a body opening with the old heading never settles |
| Lifecycle.HistoryIsAppendOnly | crates/orbit-research-store/src/edit.rs:62-234 | Over any run of revisions and assessments, path and id stay, the record still decodes, verdicts only append and each judges a revision between 1 and the current one, and the revision counts the restatements |
| Naming.ComputeKebab | crates/orbit-research-store/src/record.rs:93-105 | The byte loop computes the kebab case |
| Naming.KebabIsValid | crates/orbit-research-store/src/record.rs:93-105 | The kebab case of any title is empty or a valid slug |
| Naming.KebabKeepsLetters | crates/orbit-research-store/src/record.rs:93-105 | Apart from hyphens it is the title's ASCII letters and digits in lower case, in order |
| Naming.KebabOfSlug | crates/orbit-research-store/src/record.rs:93-105 | A valid slug is its own kebab case |
| Naming.CappedSlugIsValid | crates/orbit-research-store/src/record.rs:242-252 | A capped slug is a valid slug of at most 60 characters and a prefix of the long one |
| Naming.NewSlugIsAccepted | crates/orbit-research-store/src/record.rs:177-211 | For any title and transliteration, the new slug is valid and short and the frontmatter agrees with it |
| Naming.NewSlugIs | crates/orbit-research-store/src/record.rs:242-252 | A new slug is the transliterated title's kebab case, or "untitled"; a long one is cut before the last hyphen of its first 60 characters, or at the 60th when they have none |
| Naming.NamesOfKinds | crates/orbit-research-store/src/record.rs:54-91 | A name is the kind's own letter, the number in three digits, a hyphen and the slug, with the file extension exactly when the kind is not a directory |
| Naming.RecordNameParses | crates/orbit-research-store/src/record.rs:54-91 | Splitting the name a record is written under gives its id and slug back |
| Naming.ParsedNameIsRecordName | crates/orbit-research-store/src/record.rs:54-91 | An accepted name is exactly the one written for its id and slug, and the slug is valid |
| Naming.FrozenSlugOfPath | crates/orbit-research-store/src/edit.rs:303-315 | The slug frozen in the path a record is written under is its slug |
| Scaffold.NewPathParses | crates/orbit-research-store/src/record.rs:167-221 | For any title, the new record's name splits back into its id and a valid slug of at most 60 characters |
| Scaffold.NewRecordIsGood | crates/orbit-research-store/src/record.rs:167-240 | For any title, the new record decodes under its own name, starts a good history and refers only to what it derives from |
| Scaffold.NewRecordStarts | crates/orbit-research-store/src/record.rs:167-240 | A new record is a document with the request's title, tags and predecessors, created and updated on the day, with the status and the revision its kind starts with; its text is the heading, the kind's first section with the body, and the kind's later sections |
| Sections.NewRecordLines | crates/orbit-research-store/src/record.rs:222-240 | Read line by line, that text is the heading line, the kind's first section heading, right after it the lines of the request's body, and then the later sections |
| Scaffold.NewBodyFollowsTitle | crates/orbit-research-store/src/record.rs:222-238 | Retitling a new body gives the body scaffolded for the new title |
| Calendar.SuccessiveDays | crates/orbit-research-store/src/record.rs:138-151 | Every day count gets a valid proleptic Gregorian date, and the next day count the next date |
| Calendar.EpochIsDayZero | crates/orbit-research-store/src/record.rs:138-139 | Day 0 is 1970-01-01 |
| Calendar.DayNumberOfCivil | crates/orbit-research-store/src/record.rs:138-151 | The date computed for a day count has that day number, counted year by year and month by month |
| Calendar.CivilOfDayNumber | crates/orbit-research-store/src/record.rs:138-151 | Every valid date is the one computed from its own day number |
| Frontmatter.ParseOfRender | crates/orbit-research-store/src/record.rs:8-34 | Parsing what was rendered gives the metadata and the body with line endings converted; the body itself exactly when it holds no carriage return before a newline |
| Frontmatter.ParsedIsFramed | crates/orbit-research-store/src/record.rs:8-34 | A text parses to some metadata and body exactly when its lines are an opening line, YAML that reads, the first closing line and that body |
| Frontmatter.CloseIsFirst | crates/orbit-research-store/src/record.rs:122-128 | The closing line `render` writes is the first one `parse` finds |
| LogSafety.ReaderKeepsInv | crates/orbit-research-store/src/request_log.rs:30-97 | Each step of a reader keeps the invariant, moves the layout only forward and keeps the journal's directory and lock |
| LogSafety.PreparerKeepsInv | crates/orbit-research-store/src/request_log_layout.rs:301-382 | So does each step of a preparer |
| LogSafety.FailKeepsInv | crates/orbit-research-store/src/request_log_layout.rs:592-633 | So does each failure with its clean-up, which therefore never takes a published marker or ledger away |
| LogSafety.UnsyncedKeepsInv | crates/orbit-research-store/src/request_log_layout.rs:606-633 | So does a failure to sync the directory just after a file was published, which leaves a marker or ledger that no process owns |
| LogSafety.NextKeepsInv | crates/orbit-research-store/src/request_log_layout.rs:245-383 | Every step, failure and crash of every process keeps the invariant |
| LogSafety.OneLiveHandle | crates/orbit-research-store/src/request_log.rs:82-95 | In every interleaving at most one handle is live, and its directory and lock are the ones a fresh `location` gives |
| LogSafety.OneLockInode | crates/orbit-research-store/src/request_log_layout.rs:324-351 | All processes of a run, at any two moments, contend for one lock file |
| LogSafety.JournalIsKept | crates/orbit-research-store/src/request_log_layout.rs:363-382 | At every moment the journal found through the current layout is exactly what finished saves wrote, `location` does not refuse, and the move happened at most once and is never undone |
| LogSafety.OnlySavesSave | crates/orbit-research-store/src/request_log.rs:118-135 | What counts as saved changes only when a live handle's save is renamed into place, synced or not |
| LogSafety.ReaderTurnsTwice | crates/orbit-research-store/src/request_log.rs:34-96 | A reader goes round its loop at most twice |
| LogSafety.RerunCompletes | crates/orbit-research-store/src/request_log_layout.rs:282-382 | Preparation that runs undisturbed completes the move, whatever earlier crashes left, exactly when they left no temporary file beside the entries; no saved entry is lost either way |
| LogProgress.CutSaveStops | crates/orbit-research-store/src/request_log.rs:118-135 | From any start with the log not moved, a save that dies before its rename leaves a state, with no process holding the log, from which no undisturbed preparation completes |
| LogProgress.UndisturbedOpens | crates/orbit-research-store/src/request_log.rs:30-97 | A reader that starts when nobody holds the log gets its handle in six steps, in either layout, on the directory where the journal is, and finds every saved entry |
| LogProgress.UndisturbedSaves | crates/orbit-research-store/src/request_log.rs:118-135 | Through a live handle a save adds its entry to the journal and changes nothing else |
| LogProgress.FailedSaveLeavesNothing | crates/orbit-research-store/src/request_log.rs:118-135 | A save that fails, unlike one that is killed, leaves neither its entry nor its temporary file |
| LogProgress.PreparedAgain | crates/orbit-research-store/src/request_log_layout.rs:247-260 | Where the log has moved, preparation takes its lock, reports and changes nothing |
| Links.RequestLog.LinkIntent | crates/orbit-research-core/src/application/operations.rs:74-121 | Accepted exactly for a key of 1 to 256 bytes and a derivable scope that, if the key was used, are for the recorded record and scope; new exactly when the key was unused; then the log gains just that intent with no task; a used key or a refusal leaves the log as it was, and the answer is what the log holds |
| Links.RequestLog.LinkConfirm | crates/orbit-research-core/src/application/operations.rs:123-143 | Accepted exactly for a recorded intent with no task or this one; a confirmed task is never replaced, a refusal changes nothing, and only that key's task ever moves |
| Links.IntentIsRecalled | crates/orbit-research-core/src/application/operations.rs:69-106 | An accepted intent is recalled with nothing changed by the same call at any later time, whatever was confirmed since, exactly when it was recalled before, or its scope is not empty, or the whole directory's is empty too |
| Links.ConfirmationStays | crates/orbit-research-core/src/application/operations.rs:123-143 | After a confirmation the log changes no more, and exactly the confirmed task is confirmed again |
| Links.NextKeepsInv | crates/orbit-research-cli/src/plugin.rs:520-560 | Every step and death of every `link` call, also one that dies after its confirmation was stored, keeps the invariant and takes back no task and no confirmation |
| Links.AtMostOneTask | crates/orbit-research-cli/src/plugin.rs:526-560 | Over any interleaving at most one task carries a key's tag, a confirmed task carries it and never changes, and neither several tasks nor a refused confirmation is ever met |
| Links.AnswersAgree | crates/orbit-research-cli/src/plugin.rs:529-552 | All calls answered under a key are given the same task |
| Links.CreatedOnce | crates/orbit-research-cli/src/plugin.rs:538-553 | A key's task is created at most once in a run, heard of or not |
| Links.UndisturbedLinks | crates/orbit-research-cli/src/plugin.rs:528-560 | From any reachable state, a call whose steps nobody interrupts is answered; it links exactly when its intent is accepted and its key is new or the key's task is still listed, and then the new or listed task is the one recorded |
| Links.StepDecides | crates/orbit-research-cli/src/plugin.rs:526-560 | In any state, one listed task is confirmed, several are reported, and with none one is created only for a new intent; a confirmation is refused only by a log without the intent or with another task, which stays as it is |
| Evidence.EvidenceIsWriteOnce | crates/orbit-research-cli/src/plugin.rs:734-804 | From the start, while calls on one task do not overlap between read and write, stored evidence never changes and all answers are that evidence |
| Evidence.UndisturbedAccept | crates/orbit-research-cli/src/plugin.rs:734-804 | Left alone, a call stores its evidence on a task without any; otherwise it is answered with the stored evidence when record, README, run and digests are the same, whatever the commit, and refused when not, and nothing stored changes |
| Evidence.EvidenceStaysIff | crates/orbit-research-cli/src/plugin.rs:755-804 | From any state, a task's stored evidence, or any view of it, stays the same whatever happens next exactly when every call on the task that has read and not yet written carries evidence with the same view |
| Evidence.RacingAcceptsOverwrite | crates/orbit-research-cli/src/plugin.rs:755-804 | Two overlapping calls with different evidence both succeed, and the second overwrites the first |
| Delivery.ValidateDelivery | crates/orbit-research-store/src/delivery.rs:117-184 | A finding is reported exactly when its own rule is broken, a record that cannot be checked further hiding the later rules; there is none exactly when the checkout is deliverable, and then every local input of the manifest with a name and a digest stays inside, reads, has its digest and size if its file is there, and is listed as unverified if not; a passing report names the checked bytes and the digests |
| Delivery.DeliverableIff | crates/orbit-research-store/src/delivery.rs:117-427 | A checkout is deliverable exactly when one research record is named or bound, and not two, HEAD has it, its README decodes at its path, holds the wanted sections and names the run, its manifest reads and its local inputs match it, and the records are those of HEAD, all others byte for byte, in a sound corpus |
| Delivery.IgnoredInputIsNothing | crates/orbit-research-store/src/delivery.rs:285-296 | A shared input, or one without a name or a digest, can be removed from the manifest without changing the answer, the unverified names or the digests |
| Delivery.CheckSections | crates/orbit-research-store/src/delivery.rs:218-258 | No new finding exactly when the wanted sections occur once each, in order, with text of their own; a missing section and a placeholder are told apart |
| Delivery.CheckProvenance | crates/orbit-research-store/src/delivery.rs:439-459 | No new finding exactly when the record names the run's task and run |
| Delivery.CheckManifest | crates/orbit-research-store/src/delivery.rs:260-338 | No new finding exactly when the manifest reads and every local input stays inside and, if its file is there, reads with its digest and size; a bad name or file and other bytes are told apart; lists the absent ones in order and keeps the digests of the read ones |
| Delivery.CheckLineage | crates/orbit-research-store/src/delivery.rs:340-362 | No new finding exactly when every reference in a field the schema lists names a record of the checkout |
| Delivery.CheckScope | crates/orbit-research-store/src/delivery.rs:364-427 | Nothing found at the end exactly when nothing was found before, the checkout names HEAD's records, all others are byte for byte unchanged and the corpus is well formed; an id of its own, another record's change and an unsound corpus are told apart, the last looked for only when nothing else was found |
| Delivery.NothingDangles | crates/orbit-research-store/src/delivery.rs:340-362 | Whatever fields the schema lists, a deliverable corpus has no dangling reference for the earlier check to find |
| Delivery.WriteIsInScope | crates/orbit-research-store/src/worktree.rs:83-131 | After a run's completed write from a checkout equal to HEAD the scope check finds nothing, so the record is deliverable exactly when its own sections, provenance and manifest are in order |
| Delivery.StubIsNotDeliverable | crates/orbit-research-store/src/delivery.rs:244-257 | A reserved stub is never delivered unwritten, whatever its title and question |
| Sections.ReadSections | crates/orbit-research-store/src/delivery.rs:461-480 | The line loop builds the sections of the body |
| Markup.EndedAreLines | crates/orbit-research-store/src/delivery.rs:461-480 | Lines are read as they are, each ended by a newline or a carriage return and a newline, and so is a last one without an end |
| Markup.HeadingIff | crates/orbit-research-store/src/delivery.rs:461-480 | A line is a heading exactly when it starts with two signs and white space; the name is what is left without white space around it, and is not empty |
| Markup.LaidAreSections | crates/orbit-research-store/src/delivery.rs:461-480 | Each heading starts a section that holds all lines up to the next one; lines before the first are in none |
| Markup.WrittenIff | crates/orbit-research-store/src/delivery.rs:218-258 | A body is written exactly when the wanted sections occur in their order and none of them again, and none is a placeholder |
| Markup.IsPlaceholderIff | crates/orbit-research-store/src/delivery.rs:482-488 | A placeholder is blank text, or one of the three texts a stub starts with, whatever the case of its ASCII letters |
| Sections.WantedOccurOnce | crates/orbit-research-store/src/delivery.rs:224-230 | In a body that passes the section check each wanted section occurs exactly once |
| Sections.HeadingSplits | crates/orbit-research-store/src/delivery.rs:461-480 | From a heading on, sections do not depend on what came before |
| Sections.StubSectionIsPlaceholder | crates/orbit-research-store/src/record.rs:232-239 | A fresh stub, read back from its file, holds every section it was given as a placeholder |
| Sections.StubIsNotWritten | crates/orbit-research-store/src/delivery.rs:482-488 | So it fails the section check when any of them is wanted |
| AcceptanceCache.NamesAreLossy | crates/orbit-research-cli/src/acceptance_cache.rs:59-80 | Of two results that may be cached, the file names are the same exactly when their ids and blobs are and their tasks differ at most in replaced characters |
| AcceptanceCache.CacheNameIs | crates/orbit-research-cli/src/acceptance_cache.rs:59-80 | A result has a file name exactly when its id is a research id, its blob 40 to 64 hexadecimal digits and its task 1 to 100 bytes long: the three joined, with all characters of the task but ASCII letters, digits, hyphens and dots replaced |
| AcceptanceCache.Cache.IsAccepted | crates/orbit-research-cli/src/acceptance_cache.rs:88-112 | A hit exactly when a usable directory's file of that name holds exactly that record, task and blob |
| AcceptanceCache.Cache.Record | crates/orbit-research-cli/src/acceptance_cache.rs:114-144 | Adds at most the one entry, never over an existing file; where writes do not fail, a result that has a name then has a file |
| Panels.AwaitingAcceptance | crates/orbit-research-cli/src/panels.rs:481-599 | The rows are those of the reads with the cached results skipped, by standing and then id; the cache gains only results that their read accepted, one by one and over no existing file, all of them where writes do not fail, and nothing when unusable |
| Panels.Arrange | crates/orbit-research-cli/src/panels.rs:574-578 | The arranged rows are the same rows: awaiting ones, then changed ones, then unknown ones, and each by id, character by character |
| Panels.CacheAgrees | crates/orbit-research-cli/src/panels.rs:508-565 | When the host answers every read truly, the rows are the same with a cache whose results were accepted as with none |
| Panels.CacheAgreesIff | crates/orbit-research-cli/src/panels.rs:508-565 | When the host answers every read, the rows are the same with the cache as without exactly when the read of every cached result would have accepted it |
| Panels.NoRowMeansAccepted | crates/orbit-research-cli/src/panels.rs:508-565 | Whatever fails, a result without a row was accepted by its task's stored evidence, although file names are lossy |
| Panels.RowSays | crates/orbit-research-cli/src/panels.rs:508-565 | Until the loop gives up, an uncached result has the row, status and reason of what its task answered, and none exactly when that is evidence for it and its README |
| Panels.GivenUpSays | crates/orbit-research-cli/src/panels.rs:518-531 | Once it has given up, an uncached result is unknown, for the reason of the read that ended it |
| Panels.RowTellsStored | crates/orbit-research-cli/src/panels.rs:533-556 | When the host answers every read, a row is awaiting, changed or unknown exactly when its task stores nothing, evidence for something else, or something unreadable, and there is none exactly for accepted results |
| Panels.InventedIff | crates/orbit-research-cli/src/panels.rs:520-531 | The cache adds a row exactly for an accepted, uncached result before which no read is unavailable, one of the first three reads would be answered, and the first three uncached reads all failed; then an earlier cached result's read would have been answered |
| Panels.GivesUpIff | crates/orbit-research-cli/src/panels.rs:500-531 | The loop's counters have given up exactly when an uncached read so far was unavailable or the first three uncached reads all failed |
| Panels.CacheInventsARow | crates/orbit-research-cli/src/panels.rs:520-531 | After one cached result and three failed reads, the next accepted result gets a row it would not have had |
| Panels.UnansweredHitsChangeNothing | crates/orbit-research-cli/src/panels.rs:520-531 | While no cached result would have been answered, the cached panel keeps asking as long as the other |
| PanelRuns.RefreshIsAPath | crates/orbit-research-cli/src/panels.rs:508-565 | The cache a whole refresh leaves is one that single reads and cachings reach |
| PanelRuns.NextKeepsGood | crates/orbit-research-cli/src/acceptance_cache.rs:1-10 | While calls of `accept` on one task do not overlap, every step of every panel and call keeps each cached result accepted by its task's stored evidence |
| PanelRuns.PanelsAgree | crates/orbit-research-cli/src/panels.rs:481-565 | Over any run of refreshes and calls of `accept` from an empty cache in which calls on one task do not overlap, a refresh whose reads are all answered lists the rows it would list without the cache, whenever it looks each result up |
| PanelRuns.AcceptedForGoodIff | crates/orbit-research-cli/src/acceptance_cache.rs:1-10 | An accepted result stays accepted whatever happens next exactly when each call that has read and not yet written its task would store evidence that accepts it too |
| PanelRuns.RacedCacheHides | crates/orbit-research-cli/src/acceptance_cache.rs:1-10 | After two overlapping calls the cache can hide a result whose stored evidence no longer accepts it, where a panel without it says the result changed |
| Assessing.BarsAgreeIff | crates/orbit-research-core/src/application/acceptance.rs:34-58 | Whatever the tasks store, the panel and the assessment agree on which delivered results are accepted exactly for those whose record spells the task without white space around it |
| Assessing.DeliveredIff | crates/orbit-research-cli/src/panels.rs:484-496 | A result is on the panel exactly when its record names a task and a run, neither blank |
| Assessing.Assess | crates/orbit-research-core/src/application/api.rs:206-229 | An assessment not asked before is refused exactly when the rewrite is not allowed or the cited record's task does not answer with evidence for its README in the checkout; else its plan appends the verdict and moves the hypothesis's status exactly when the table does; either way the writer's guarantees for a call hold |
| Assessing.RequireAcceptanceIff | crates/orbit-research-core/src/application/acceptance.rs:78-106 | A record may be cited exactly when it is research that names a task which is not blank, and that task, spelt as it is, answers with evidence for exactly that record and its README |
| AssessmentRuns.CommittedAssessmentsAreCited | crates/orbit-research-core/src/application/acceptance.rs:78-106 | Over every run of writer calls, crashes, edits, other commits and calls of `accept`, a committed assessment replaced a corpus whose cited record names a task that at some earlier moment stored evidence for exactly the README in that corpus |
| AssessmentRuns.CommittedAssessmentsStayCited | crates/orbit-research-cli/src/plugin.rs:734-804 | That evidence is stored at every later moment too, while calls of `accept` on one task do not overlap between read and write |
| Framing.BoundedLine | crates/orbit-research-cli/src/mcp.rs:24-63 | For every way the input arrives, the line is the one the bytes give, exactly the bytes through the newline are consumed, no more than the limit is held, and a line is refused exactly when `Framing.LineRead` refuses it |
| Framing.LineReadIs | crates/orbit-research-cli/src/mcp.rs:49-63 | A line is refused exactly when it exceeds the limit with its newline or is no text's UTF-8, and otherwise is the one text whose UTF-8 it is without its line ending |
| Utf8.DecodeIff | crates/orbit-research-cli/src/mcp.rs:60-62 | Bytes decode exactly when they are some text's UTF-8, and to that text: no overlong form and no surrogate is accepted |
| Framing.ServeLines | crates/orbit-research-cli/src/mcp.rs:80-81 | The loop reads the requests of the input in order and stops at its end or at the first line that is too long or not UTF-8 |
| Framing.SentArrives | crates/orbit-research-cli/src/mcp.rs:24-63 | Every list of texts without newlines that fit on a line arrives as it was sent, each ended by a newline or by a carriage return and a newline; before a bare newline a text must not end in a carriage return |
| Framing.LastLineArrives | crates/orbit-research-cli/src/mcp.rs:24-63 | A last text needs no newline |

## Left out

- JSON Schema checks of metadata and manifests, which could only refuse more; all message texts; the width of `revision`, which is unbounded here.
- The lenient read of `read_records_lenient` and the `unreadable` and `flawed` sets of `validate_readable`: any such file refuses the snapshot anyway.
- References that are not record ids: they are ids that name no record.
- Names in an owner directory that are not record names make every read of it fail; here such a name is another file.
- Path safety, symbolic links, permissions, file synchronisation, lock time-outs, and records or manifests that are not UTF-8.
- Resets, amended and merge commits: history is a chain that is only appended to, and nobody else writes a request key into a commit.
- `git diff --cached --name-only` hides the source of a staged rename, and files that Git ignores are invisible to it: the staged check here sees every path that differs, and a clean checkout has no other file.
- Edits by others inside one call: a call holds the writer's lock, and others act between calls.
- Directories, which Git does not track: the empty `code` and `artifacts` of a new research record, and the record's own, which a crash before its README leaves empty and which then fails every scan until the retry fills it.
- Which temporary files Git sees depends on the corpus's ignore rules; here any may be seen. In the binding and intent files' own directories they are not tracked.
- The request log runs as a state machine on values, because its steps interleave between processes: the loop, the lock file and `OwnedMarker` are steps of that machine, not methods of a class. The checks `verify` makes under the lock are one step, the host may create an empty target directory at any time, and the temporary file of the staged marker lies outside the journal and is not tracked.
- `recreate_missing_state` and any deletion of journal, lock or state files: the code accepts losing links there.
- `RequestLog::list` and its order; the ignore rules and device check before preparation, which can only refuse.
- `link` checks of title and description, and `accept`'s checks of task state; the host never reuses a task id, and only `link` calls create tasks with a request tag.
- The panel's time budget and its row cap; a time-out is a failed read.
- `shift_lines`, `deunicode`, the YAML printer and SHA-256: arbitrary functions, with the law in `Frontmatter.Prints` asked of the printer.
- The MCP session after framing: methods, initialisation and responses.
- Terminal output, the other panels, workspace initialisation and the command line.
