/** The primary-mode writer's durable state (`writer.rs`): what is on disk between
    any two of its steps, and what holds of it however calls, crashes and edits interleave. */
module Writer {
  import opened Basics
  import opened Naming
  import opened Records
  import opened Lifecycle
  import Text

  // ---- Requests, intents and commits ----------------------------------------

  /** A request; its digest covers all of it, so a request is its own digest. */
  datatype Request =
    | Reserve(kind: Kind, title: string, body: string, tags: seq<string>, derivedFrom: seq<RecordId>)
    | ReviseQuestion(id: RecordId, blob: Content, edit: Edit)
    | Revise(id: RecordId, blob: Content, edit: Edit)
    | Assess(id: RecordId, blob: Content, verdict: Verdict)

  /** The caller's key for a reservation; the whole request for a rewrite. */
  datatype Key = RequestKey(text: string) | RewriteKey(request: Request)

  /** `before` is None for a file to create, else the bytes to replace. */
  datatype WriteFile = WriteFile(path: Path, text: Content, before: Option<Content>)

  datatype Receipt = Receipt(
    id: RecordId, path: Path, commit: nat, changed: bool, request: Request, blob: Content, replayed: bool)

  datatype Intent = Intent(
    request: Request, id: RecordId, path: Path, text: Content, parent: nat,
    files: seq<WriteFile>, receipt: Option<Receipt>)

  /** `trailer` is the key in the message's `Orbit-Research-Request` line. */
  datatype Commit = Commit(tree: Tree, trailer: Option<Key>)

  /** HEAD is the last commit; a commit's parent is the one before it. `stray` says that a
      temporary file lies in the working tree: a kill in the middle of writing a file leaves
      one. Scans pass over it, but Git lists it. */
  datatype Repo = Repo(chain: seq<Commit>, index: Tree, work: Tree, stray: bool, intents: map<Key, Intent>)

  const EMPTY_MANIFEST := Plain("{\"inputs\":[]}\n")

  function NewFiles(id: RecordId, path: Path, text: Content): seq<WriteFile> {
    [WriteFile(path, text, None)] +
    if id.kind == Research && path.RecordFile?
      then [WriteFile(Manifest(path.id, path.slug), EMPTY_MANIFEST, None)] else []
  }

  /** The files an intent writes; older creation intents stored only path and text. */
  function Files(intent: Intent): seq<WriteFile> {
    if intent.files == [] then NewFiles(intent.id, intent.path, intent.text) else intent.files
  }

  predicate DistinctPaths(files: seq<WriteFile>) {
    forall i, j :: 0 <= i < j < |files| ==> files[i].path != files[j].path
  }

  /** A tree with the files' texts written, in order. */
  function Overlay(tree: Tree, files: seq<WriteFile>): Tree {
    if files == [] then tree
    else Overlay(tree, files[..|files| - 1])[files[|files| - 1].path := files[|files| - 1].text]
  }

  predicate Names(files: seq<WriteFile>, path: Path) {
    exists i :: 0 <= i < |files| && files[i].path == path
  }

  predicate Same(a: Tree, b: Tree, path: Path) {
    (path in a <==> path in b) && (path in a && path in b ==> a[path] == b[path])
  }

  predicate Has(tree: Tree, file: WriteFile) {
    file.path in tree && tree[file.path] == file.text
  }

  /** `check_file`: the destination holds the new bytes, the expected ones, or
      nothing when the file is to be created. */
  predicate Accepts(tree: Tree, file: WriteFile) {
    if file.path in tree then tree[file.path] == file.text || file.before == Some(tree[file.path])
    else file.before.None?
  }

  /** The destination holds exactly what the file says it replaces. */
  predicate Fits(tree: Tree, file: WriteFile) {
    match file.before
    case None => file.path !in tree
    case Some(bytes) => file.path in tree && tree[file.path] == bytes
  }

  lemma {:induction false} OverlayAt(tree: Tree, files: seq<WriteFile>, path: Path)
    requires DistinctPaths(files)
    ensures !Names(files, path) ==> Same(Overlay(tree, files), tree, path)
    ensures forall i :: 0 <= i < |files| && files[i].path == path ==> Has(Overlay(tree, files), files[i])
  {
    if files != [] {
      OverlayAt(tree, files[..|files| - 1], path);
    }
  }

  /** Overlaying is the only tree with the files' texts and everything else as before. */
  lemma OverlayIs(tree: Tree, files: seq<WriteFile>, result: Tree)
    requires DistinctPaths(files)
    requires forall file | file in files :: Has(result, file)
    requires forall path :: !Names(files, path) ==> Same(result, tree, path)
    ensures result == Overlay(tree, files)
  {
    forall path ensures Same(result, Overlay(tree, files), path) {
      OverlayAt(tree, files, path);
      if Names(files, path) {
        var i :| 0 <= i < |files| && files[i].path == path;
        assert files[i] in files;
      }
    }
    assert forall path :: path in result <==> path in Overlay(tree, files) by {
      forall path ensures path in result <==> path in Overlay(tree, files) {
        assert Same(result, Overlay(tree, files), path);
      }
    }
    forall path | path in result ensures result[path] == Overlay(tree, files)[path] {
      assert Same(result, Overlay(tree, files), path);
    }
  }

  lemma OverlayNothing(tree: Tree, files: seq<WriteFile>)
    ensures Overlay(tree, files[..0]) == tree
  {
  }

  lemma WriteNext(tree: Tree, files: seq<WriteFile>, i: nat)
    requires i < |files|
    ensures Overlay(tree, files[..i + 1]) == Overlay(tree, files[..i])[files[i].path := files[i].text]
  {
    assert files[..i + 1][..i] == files[..i];
  }

  // ---- What a stored intent promises ----------------------------------------

  predicate HasRecord(tree: Tree, id: RecordId) {
    exists path :: path in tree && path.RecordFile? && path.id == id
  }

  /** What an intent was made for: a reservation creates a new id; a rewrite
      replaces exactly the bytes its expected blob names. */
  predicate Serves(tree: Tree, key: Key, intent: Intent) {
    && intent.path.RecordFile? && intent.path.id == intent.id
    && match key
       case RequestKey(_) =>
         && intent.request.Reserve?
         && Files(intent) == NewFiles(intent.id, intent.path, intent.text)
         && !HasRecord(tree, intent.id)
       case RewriteKey(request) =>
         && request == intent.request && !request.Reserve?
         && intent.id == request.id
         && Files(intent) == [WriteFile(intent.path, intent.text, Some(request.blob))]
  }

  /** A reservation takes the next number of its kind. */
  ghost predicate TakesNext(tree: Tree, request: Request, id: RecordId)
    requires request.Reserve? && Readable(tree)
  {
    id.kind == request.kind && 0 < id.number && IsHighest(RecordsOf(tree).Keys, id.kind, id.number - 1)
  }

  ghost predicate Planned(chain: seq<Commit>, key: Key, intent: Intent) {
    && intent.parent < |chain|
    && var tree := chain[intent.parent].tree;
    && Serves(tree, key, intent)
    && DistinctPaths(Files(intent))
    && (forall file | file in Files(intent) :: Fits(tree, file))
    && Sound(tree)
    && Sound(Overlay(tree, Files(intent)))
    && (key.RequestKey? ==> TakesNext(tree, intent.request, intent.id))
  }

  /** The commit a receipt names holds the intent's files: the writer's own commit
      on the intent's parent, or the parent itself when nothing had to change. */
  predicate Honest(chain: seq<Commit>, key: Key, intent: Intent, receipt: Receipt) {
    && receipt.id == intent.id && receipt.path == intent.path
    && receipt.request == intent.request && receipt.blob == intent.text
    && receipt.changed == (receipt.commit != intent.parent)
    && !receipt.replayed
    && receipt.commit < |chain|
    && (forall file | file in Files(intent) :: Has(chain[receipt.commit].tree, file))
    && (receipt.changed ==> receipt.commit == intent.parent + 1 && chain[receipt.commit].trailer == Some(key))
  }

  ghost predicate IntentOk(chain: seq<Commit>, key: Key, intent: Intent) {
    && Planned(chain, key, intent)
    && (intent.receipt.Some? ==> Honest(chain, key, intent, intent.receipt.value))
  }

  /** A commit that carries a key was made on that key's intent's parent, replaced
      exactly that intent's files, changed something, and is the one its receipt names. */
  predicate Attributed(chain: seq<Commit>, intents: map<Key, Intent>, i: nat)
    requires i < |chain|
  {
    chain[i].trailer.Some? ==>
      && chain[i].trailer.value in intents
      && var intent := intents[chain[i].trailer.value];
      && i == intent.parent + 1 && chain[i].tree == Overlay(chain[i - 1].tree, Files(intent))
      && chain[i].tree != chain[i - 1].tree
      && (intent.receipt.Some? ==> intent.receipt.value.commit == i)
  }

  /** The writer's invariant: it holds between any two durable steps. */
  ghost predicate Inv(s: Repo) {
    && s.chain != []
    && (forall key | key in s.intents :: IntentOk(s.chain, key, s.intents[key]))
    && (forall i: nat | i < |s.chain| :: Attributed(s.chain, s.intents, i))
  }

  // ---- How the durable state may move ---------------------------------------

  predicate SamePlan(a: Intent, b: Intent) {
    && a.request == b.request && a.id == b.id && a.path == b.path && a.text == b.text
    && a.parent == b.parent && Files(a) == Files(b)
  }

  /** History is only appended to, plans never change and receipts never change. */
  predicate Evolves(s: Repo, t: Repo) {
    && s.chain <= t.chain
    && (forall key | key in s.intents ::
          && key in t.intents
          && SamePlan(s.intents[key], t.intents[key])
          && (s.intents[key].receipt.Some? ==> t.intents[key].receipt == s.intents[key].receipt))
  }

  lemma EvolvesTransitive(a: Repo, b: Repo, c: Repo)
    requires Evolves(a, b) && Evolves(b, c)
    ensures Evolves(a, c)
  {
  }

  lemma IntentOkSurvives(chain: seq<Commit>, longer: seq<Commit>, key: Key, intent: Intent)
    requires chain <= longer && IntentOk(chain, key, intent)
    ensures IntentOk(longer, key, intent)
  {
    hide Sound;
  }

  lemma SamePlanSurvives(chain: seq<Commit>, key: Key, a: Intent, b: Intent)
    requires SamePlan(a, b) && Planned(chain, key, a)
    ensures Planned(chain, key, b)
    ensures forall receipt :: Honest(chain, key, a, receipt) ==> Honest(chain, key, b, receipt)
  {
    hide Sound, Overlay;
  }

  /** Edits of the working tree and the index, by the writer or by anyone else. */
  lemma EditKeepsInv(s: Repo, work: Tree, stray: bool, index: Tree)
    requires Inv(s)
    ensures var t := s.(work := work, stray := stray, index := index); Inv(t) && Evolves(s, t)
  {
    hide Planned, Honest;
  }

  /** A commit made by anyone else carries no request key. */
  lemma OtherCommitKeepsInv(s: Repo, tree: Tree)
    requires Inv(s)
    ensures var t := s.(chain := s.chain + [Commit(tree, None)]); Inv(t) && Evolves(s, t)
  {
    hide Planned, Honest;
    var t := s.(chain := s.chain + [Commit(tree, None)]);
    forall key | key in s.intents ensures IntentOk(t.chain, key, t.intents[key]) {
      IntentOkSurvives(s.chain, t.chain, key, s.intents[key]);
    }
    forall i: nat | i < |t.chain| ensures Attributed(t.chain, t.intents, i) {
      if i < |s.chain| { assert Attributed(s.chain, s.intents, i); }
    }
  }

  lemma SaveIntentKeepsInv(s: Repo, key: Key, intent: Intent)
    requires Inv(s) && key !in s.intents && IntentOk(s.chain, key, intent)
    ensures var t := s.(intents := s.intents[key := intent]); Inv(t) && Evolves(s, t)
  {
    hide Planned, Honest;
    var t := s.(intents := s.intents[key := intent]);
    forall i: nat | i < |t.chain| ensures Attributed(t.chain, t.intents, i) {
      assert Attributed(s.chain, s.intents, i);
    }
  }

  /** The writer's own commit: HEAD is the intent's parent. */
  lemma OwnCommitKeepsInv(s: Repo, key: Key)
    requires Inv(s) && key in s.intents && s.intents[key].parent == |s.chain| - 1
    requires s.intents[key].receipt.None?
    requires Overlay(s.chain[|s.chain| - 1].tree, Files(s.intents[key])) != s.chain[|s.chain| - 1].tree
    ensures var tree := Overlay(s.chain[|s.chain| - 1].tree, Files(s.intents[key]));
            var t := s.(chain := s.chain + [Commit(tree, Some(key))]);
            Inv(t) && Evolves(s, t)
  {
    hide Planned, Honest;
    var tree := Overlay(s.chain[|s.chain| - 1].tree, Files(s.intents[key]));
    var t := s.(chain := s.chain + [Commit(tree, Some(key))]);
    forall other | other in s.intents ensures IntentOk(t.chain, other, t.intents[other]) {
      IntentOkSurvives(s.chain, t.chain, other, s.intents[other]);
    }
    forall i: nat | i < |t.chain| ensures Attributed(t.chain, t.intents, i) {
      if i < |s.chain| { assert Attributed(s.chain, s.intents, i); }
    }
  }

  lemma SaveReceiptKeepsInv(s: Repo, key: Key, receipt: Receipt)
    requires Inv(s) && key in s.intents && s.intents[key].receipt.None?
    requires Honest(s.chain, key, s.intents[key], receipt) && receipt.commit == |s.chain| - 1
    ensures var t := s.(intents := s.intents[key := s.intents[key].(files := Files(s.intents[key]),
                                  receipt := Some(receipt))]);
            Inv(t) && Evolves(s, t)
  {
    hide Planned;
    var intent := s.intents[key].(files := Files(s.intents[key]), receipt := Some(receipt));
    var t := s.(intents := s.intents[key := intent]);
    SamePlanSurvives(s.chain, key, s.intents[key], intent);
    forall i: nat | i < |t.chain| ensures Attributed(t.chain, t.intents, i) {
      assert Attributed(s.chain, s.intents, i);
    }
  }

  /** The receipt of the commit just reached is honest. */
  lemma NewReceiptIsHonest(s: Repo, key: Key, receipt: Receipt)
    requires s.chain != [] && key in s.intents
    requires var intent := s.intents[key];
             && receipt == Receipt(intent.id, intent.path, |s.chain| - 1, |s.chain| - 1 != intent.parent,
                                   intent.request, intent.text, false)
             && (forall file | file in Files(intent) :: Has(Head(s), file))
             && (|s.chain| - 1 == intent.parent
                 || (|s.chain| - 1 == intent.parent + 1 && s.chain[|s.chain| - 1].trailer == Some(key)))
    ensures Honest(s.chain, key, s.intents[key], receipt)
  {
  }

  // ---- What a retry can resume ----------------------------------------------

  function Head(s: Repo): Tree
    requires s.chain != []
  {
    s.chain[|s.chain| - 1].tree
  }

  predicate Clean(s: Repo)
    requires s.chain != []
  {
    s.index == Head(s) && s.work == s.index && !s.stray
  }

  /** The working tree and index a crash of the writer can leave on the intent's parent:
      the first `n` files written, and all of them staged or none. */
  predicate Partial(s: Repo, files: seq<WriteFile>, n: nat)
    requires s.chain != [] && n <= |files|
  {
    && s.work == Overlay(Head(s), files[..n])
    && (s.index == Head(s) || (n == |files| && s.index == Overlay(Head(s), files)))
  }

  /** Nothing but the writer has touched the checkout since it planned this write. */
  predicate Resumable(s: Repo, key: Key)
    requires s.chain != []
  {
    && key in s.intents
    && var intent := s.intents[key];
    || intent.receipt.Some?
    || (intent.parent == |s.chain| - 1 && exists n: nat | n <= |Files(intent)| :: Partial(s, Files(intent), n))
    || (intent.parent + 2 == |s.chain| && s.chain[|s.chain| - 1].trailer == Some(key))
  }

  lemma ReceiptedIsResumable(s: Repo, key: Key)
    requires s.chain != [] && key in s.intents && s.intents[key].receipt.Some?
    ensures Resumable(s, key)
  {
  }

  /** `recover_commit`: HEAD is this key's commit on the intent's parent, changes only
      the intent's files, and holds them. */
  predicate Recoverable(s: Repo, key: Key, intent: Intent)
    requires s.chain != []
  {
    && intent.parent + 2 == |s.chain|
    && s.chain[|s.chain| - 1].trailer == Some(key)
    && (forall path | path in s.chain[|s.chain| - 1].tree.Keys + s.chain[|s.chain| - 2].tree.Keys ::
          Same(s.chain[|s.chain| - 1].tree, s.chain[|s.chain| - 2].tree, path) || Names(Files(intent), path))
    && (forall file | file in Files(intent) :: Has(Head(s), file))
  }

  // ---- When a retry completes -----------------------------------------------

  predicate StagedPathOk(index: Tree, files: seq<WriteFile>, path: Path) {
    exists file :: file in files && file.path == path && path in index
                   && (index[path] == file.text || file.before == Some(index[path]))
  }

  /** What the staged check accepts: only the files' paths, with new or expected bytes. */
  ghost predicate StagedOk(index: Tree, head: Tree, files: seq<WriteFile>) {
    forall path :: !Same(index, head, path) ==> StagedPathOk(index, files, path)
  }

  /** Adding the files cannot break the staged check. */
  lemma StagingStaysOk(index: Tree, head: Tree, files: seq<WriteFile>)
    requires DistinctPaths(files) && StagedOk(index, head, files)
    ensures StagedOk(Overlay(index, files), head, files)
  {
    var after := Overlay(index, files);
    forall path | !Same(after, head, path) ensures StagedPathOk(after, files, path) {
      OverlayAt(index, files, path);
      if Names(files, path) {
        var i :| 0 <= i < |files| && files[i].path == path;
        assert files[i] in files && Has(after, files[i]);
      } else {
        assert StagedPathOk(index, files, path);
        var file :| file in files && file.path == path;
      }
    }
  }

  /** What a call for a planned request needs, crashes aside: its receipt, its own commit at
      HEAD, or its parent there with every destination accepting its file, a sound corpus
      once they are written, and nothing else staged. */
  ghost predicate Finishable(s: Repo, key: Key)
    requires s.chain != []
  {
    && key in s.intents
    && var plan := s.intents[key];
       || plan.receipt.Some?
       || if plan.parent != |s.chain| - 1 then s.chain[|s.chain| - 1].trailer == Some(key)
          else
            && (forall file | file in Files(plan) :: Accepts(s.work, file))
            && Sound(Overlay(s.work, Files(plan)))
            && StagedOk(s.index, Head(s), Files(plan))
  }

  // ---- What one call may change ---------------------------------------------

  /** Nothing, or the first few files over a tree in which every destination accepts its file. */
  predicate Wrote(before: Tree, after: Tree, files: seq<WriteFile>) {
    || after == before
    || (&& (forall file | file in files :: Accepts(before, file))
        && exists n: nat :: n <= |files| && after == Overlay(before, files[..n]))
  }

  /** A commit a call makes is its own key's, on that key's parent, and changes something. */
  predicate AddsAtMostOwnCommit(s: Repo, t: Repo, key: Key)
    requires s.chain != []
  {
    || t.chain == s.chain
    || (&& key in t.intents && t.intents[key].parent == |s.chain| - 1
        && Overlay(Head(s), Files(t.intents[key])) != Head(s)
        && t.chain == s.chain + [Commit(Overlay(Head(s), Files(t.intents[key])), Some(key))])
  }

  /** A call under `key` touches no other key's intent, writes and stages only its own
      intent's files, takes no temporary file away, and adds at most its own commit. */
  predicate Confined(s: Repo, t: Repo, key: Key)
    requires s.chain != []
  {
    && t.intents - {key} == s.intents - {key}
    && AddsAtMostOwnCommit(s, t, key)
    && (s.stray ==> t.stray)
    && (t.work == s.work || (key in t.intents && Wrote(s.work, t.work, Files(t.intents[key]))))
    && (t.index == s.index || (key in t.intents && t.index == Overlay(s.index, Files(t.intents[key]))))
  }

  lemma ConfinedAfterSaving(s: Repo, saved: Repo, t: Repo, key: Key)
    requires s.chain != [] && saved.intents - {key} == s.intents - {key}
    requires saved == s.(intents := saved.intents) && Confined(saved, t, key)
    ensures Confined(s, t, key)
  {
    hide Overlay, Wrote;
  }

  // ---- What one call may do -------------------------------------------------

  /** A crash leaves the caller without an answer. */
  datatype Outcome = Done(receipt: Receipt) | Rejected(error: Error) | Crashed

  /** A receipt as the caller sees it agrees with the stored one. */
  predicate Acknowledged(s: Repo, key: Key, receipt: Receipt) {
    && key in s.intents
    && s.intents[key].receipt == Some(receipt.(replayed := false))
  }

  const MAX_KEY: nat := 256

  predicate BlankQuestionTitle(request: Request) {
    request.ReviseQuestion? && request.edit.title.Some? && Text.Trim(request.edit.title.value) == ""
  }

  /** What a request must meet before any state is looked at. */
  predicate WellAsked(key: Key, request: Request) {
    match key
    case RequestKey(text) => 1 <= Text.Utf8Length(text) <= MAX_KEY && request.Reserve? && Text.Trim(request.title) != ""
    case RewriteKey(asked) => asked == request && !request.Reserve? && !BlankQuestionTitle(request)
  }

  /** What a call for `request` under `key` may do, crash or not. An answer is the stored
      receipt. A fresh key is refused with nothing changed, or planned on a clean HEAD. A used
      key is refused for another request; for its own, unless the call crashes, it is answered
      exactly when the plan is finishable, which it stays while it is resumable; and crash or
      not, no other plan gets a receipt. */
  ghost predicate Serviced(s: Repo, key: Key, request: Request, outcome: Outcome, t: Repo)
    requires s.chain != []
  {
    && Inv(t) && Evolves(s, t) && Confined(s, t, key)
    && (outcome.Done? ==>
          && Acknowledged(t, key, outcome.receipt) && outcome.receipt.request == request
          && (outcome.receipt.replayed <==> key in s.intents && s.intents[key].receipt.Some?))
    && (outcome.Rejected? ==> t.chain == s.chain && t.intents == s.intents)
    && (t.stray && !s.stray ==> outcome.Crashed?)
    && (!WellAsked(key, request) ==> outcome.Rejected? && t == s)
    && (WellAsked(key, request) ==>
          if key !in s.intents then
            if outcome.Rejected? then t == s
            else
              && Clean(s) && Resumable(t, key)
              && t.intents[key].request == request && t.intents[key].parent == |s.chain| - 1
          else if s.intents[key].request != request then outcome.Rejected? && t == s
          else
            && (outcome.Rejected? ==> !Finishable(s, key))
            && (outcome.Done? || t.intents[key].receipt.Some? ==> Finishable(s, key))
            && (Resumable(s, key) ==> !outcome.Rejected? && Resumable(t, key)))
  }

  lemma RefusedIsServiced(s: Repo, key: Key, request: Request, error: Error)
    requires Inv(s) && s.chain != [] && Evolves(s, s) && Confined(s, s, key)
    requires !WellAsked(key, request) || key !in s.intents || s.intents[key].request != request
    ensures Serviced(s, key, request, Rejected(error), s)
  {
    hide Inv, Evolves, Confined, WellAsked, Resumable, Finishable;
  }

  lemma NewIsServiced(s: Repo, key: Key, request: Request, outcome: Outcome, t: Repo)
    requires s.chain != [] && WellAsked(key, request) && key !in s.intents && Clean(s)
    requires t.chain != [] && Inv(t) && Evolves(s, t) && Confined(s, t, key) && !outcome.Rejected?
    requires outcome.Done? ==> Acknowledged(t, key, outcome.receipt) && outcome.receipt.request == request
    requires outcome.Done? ==> !outcome.receipt.replayed
    requires t.stray && !s.stray ==> outcome.Crashed?
    requires Resumable(t, key) && t.intents[key].request == request && t.intents[key].parent == |s.chain| - 1
    ensures Serviced(s, key, request, outcome, t)
  {
    hide Inv, Evolves, Confined, WellAsked, Resumable, Finishable, Acknowledged;
  }

  lemma RetryIsServiced(s: Repo, key: Key, request: Request, outcome: Outcome, t: Repo)
    requires s.chain != [] && WellAsked(key, request) && key in s.intents && s.intents[key].request == request
    requires t.chain != [] && Inv(t) && Evolves(s, t) && Confined(s, t, key)
    requires outcome.Done? ==> Acknowledged(t, key, outcome.receipt) && outcome.receipt.request == request
    requires outcome.Done? ==> (outcome.receipt.replayed <==> s.intents[key].receipt.Some?)
    requires outcome.Rejected? ==> t.chain == s.chain && t.intents == s.intents
    requires t.stray && !s.stray ==> outcome.Crashed?
    requires outcome.Rejected? ==> !Finishable(s, key)
    requires key in t.intents && (outcome.Done? || t.intents[key].receipt.Some? ==> Finishable(s, key))
    requires Resumable(s, key) ==> !outcome.Rejected? && Resumable(t, key)
    ensures Serviced(s, key, request, outcome, t)
  {
    hide Inv, Evolves, Confined, WellAsked, Resumable, Finishable, Acknowledged;
  }

  // ---- Recovering a commit --------------------------------------------------

  /** In a state the writer can be in, HEAD carrying the key is all recovery needs. */
  lemma OwnCommitIsRecoverable(s: Repo, key: Key)
    requires Inv(s) && key in s.intents && s.chain[|s.chain| - 1].trailer == Some(key)
    ensures Recoverable(s, key, s.intents[key])
  {
    hide Sound, Serves, Fits, Honest, TakesNext, Overlay;
    var intent := s.intents[key];
    assert Attributed(s.chain, s.intents, |s.chain| - 1);
    PlanOf(s, key);
    OverlayHas(s.chain[intent.parent].tree, Files(intent));
    forall path ensures Same(Head(s), s.chain[intent.parent].tree, path) || Names(Files(intent), path) {
      OverlayAt(s.chain[intent.parent].tree, Files(intent), path);
    }
  }

  /** So away from its parent, HEAD is recoverable exactly when it carries the key. */
  lemma RecoverableIsOwnCommit(s: Repo, key: Key)
    requires Inv(s) && key in s.intents
    ensures Recoverable(s, key, s.intents[key]) <==> s.chain[|s.chain| - 1].trailer == Some(key)
  {
    hide IntentOk, Attributed;
    if s.chain[|s.chain| - 1].trailer == Some(key) {
      OwnCommitIsRecoverable(s, key);
    }
  }

  lemma OverlayHas(tree: Tree, files: seq<WriteFile>)
    requires DistinctPaths(files)
    ensures forall file | file in files :: Has(Overlay(tree, files), file)
  {
    forall file | file in files ensures Has(Overlay(tree, files), file) {
      var i :| 0 <= i < |files| && files[i] == file;
      OverlayAt(tree, files, file.path);
    }
  }

  /** Every destination still accepts the write after some of the files were written. */
  lemma PartialAccepts(tree: Tree, files: seq<WriteFile>, n: nat)
    requires DistinctPaths(files) && n <= |files|
    requires forall file | file in files :: Accepts(tree, file)
    ensures forall file | file in files :: Accepts(Overlay(tree, files[..n]), file)
  {
    forall i | 0 <= i < |files| ensures Accepts(Overlay(tree, files[..n]), files[i]) {
      OverlayAt(tree, files[..n], files[i].path);
      assert files[i] in files;
      if i < n { assert files[..n][i] == files[i]; } else { assert !Names(files[..n], files[i].path); }
    }
  }

  /** Writing files of which some were written before writes up to the later of the two. */
  lemma OverlayTwice(tree: Tree, files: seq<WriteFile>, n: nat, m: nat)
    requires DistinctPaths(files) && n <= |files| && m <= |files|
    ensures Overlay(Overlay(tree, files[..n]), files[..m]) == Overlay(tree, files[..if n < m then m else n])
  {
    var once := Overlay(tree, files[..n]);
    var twice := Overlay(once, files[..m]);
    var most := files[..if n < m then m else n];
    forall path | !Names(most, path) ensures Same(twice, tree, path) {
      NamesFewer(files, n, |most|, path);
      NamesFewer(files, m, |most|, path);
      OverlayAt(tree, files[..n], path);
      OverlayAt(once, files[..m], path);
    }
    forall i | 0 <= i < |most| ensures Has(twice, most[i]) {
      OverlayAt(tree, files[..n], files[i].path);
      OverlayAt(once, files[..m], files[i].path);
      if i < m {
        assert files[..m][i] == files[i];
      } else {
        assert files[..n][i] == files[i];
        assert !Names(files[..m], files[i].path);
      }
    }
    OverlayIs(tree, most, twice);
  }

  lemma NamesFewer(files: seq<WriteFile>, n: nat, m: nat, path: Path)
    requires n <= m <= |files|
    ensures Names(files[..n], path) ==> Names(files[..m], path)
  {
    if Names(files[..n], path) {
      var i :| 0 <= i < n && files[..n][i].path == path;
      assert files[..m][i].path == path;
    }
  }

  /** No clobbering: wherever a destination changed, it had held nothing and was to be
      created, or had held exactly the bytes the file replaces. */
  lemma NoClobber(tree: Tree, files: seq<WriteFile>, n: nat, path: Path)
    requires DistinctPaths(files) && n <= |files|
    requires forall file | file in files :: Accepts(tree, file)
    requires !Same(Overlay(tree, files[..n]), tree, path)
    ensures exists file :: file in files && file.path == path && Fits(tree, file)
                           && Has(Overlay(tree, files[..n]), file)
  {
    OverlayAt(tree, files[..n], path);
    var i :| 0 <= i < n && files[..n][i].path == path;
    assert files[i] in files && Accepts(tree, files[i]);
  }

  /** What the invariant says of one stored intent. */
  lemma PlanOf(s: Repo, key: Key)
    requires Inv(s) && key in s.intents
    ensures var intent := s.intents[key];
            && intent.parent < |s.chain|
            && DistinctPaths(Files(intent))
            && (forall file | file in Files(intent) :: Fits(s.chain[intent.parent].tree, file))
            && Sound(Overlay(s.chain[intent.parent].tree, Files(intent)))
            && (intent.receipt.Some? ==> Honest(s.chain, key, intent, intent.receipt.value))
  {
    hide Sound, Serves, Overlay, Attributed, Honest;
    assert IntentOk(s.chain, key, s.intents[key]);
  }

  /** A resumable write away from its parent is recoverable. */
  lemma ResumableRecovers(s: Repo, key: Key)
    requires Inv(s) && Resumable(s, key)
    requires s.intents[key].receipt.None? && s.intents[key].parent != |s.chain| - 1
    ensures Recoverable(s, key, s.intents[key])
  {
    hide Inv, Recoverable;
    OwnCommitIsRecoverable(s, key);
  }

  /** Applying a resumable write on its parent cannot be refused, and a crash part way
      leaves it resumable. */
  lemma ResumableApplies(s: Repo, key: Key, m: nat, stray: bool)
    requires Inv(s) && Resumable(s, key)
    requires s.intents[key].receipt.None? && s.intents[key].parent == |s.chain| - 1
    requires m <= |Files(s.intents[key])|
    ensures var files := Files(s.intents[key]);
            && (forall file | file in files :: Accepts(s.work, file))
            && var t := s.(work := Overlay(s.work, files[..m]), stray := stray);
            Resumable(t, key) && (m == |files| ==> Partial(t, files, m))
  {
    hide Inv, Overlay, Recoverable, Partial, Accepts, Fits;
    var files := Files(s.intents[key]);
    PlanOf(s, key);
    FittingAccepts(Head(s), files);
    var n: nat :| n <= |files| && Partial(s, files, n);
    PartialMoves(s, files, n, m, stray);
  }

  lemma FittingAccepts(tree: Tree, files: seq<WriteFile>)
    requires forall file | file in files :: Fits(tree, file)
    ensures forall file | file in files :: Accepts(tree, file)
  {
  }

  lemma PartialMoves(s: Repo, files: seq<WriteFile>, n: nat, m: nat, stray: bool)
    requires s.chain != [] && DistinctPaths(files) && n <= |files| && m <= |files| && Partial(s, files, n)
    requires forall file | file in files :: Accepts(Head(s), file)
    ensures forall file | file in files :: Accepts(s.work, file)
    ensures Partial(s.(work := Overlay(s.work, files[..m]), stray := stray), files, if n < m then m else n)
  {
    hide Overlay, Accepts;
    PartialAccepts(Head(s), files, n);
    OverlayTwice(Head(s), files, n, m);
  }
}
