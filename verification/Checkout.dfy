/** The primary-mode writer (`writer.rs`) as it drives a checkout step by step.
    Where the process may be killed, a crash may fall after any durable step. */
module Checkout {
  import opened Basics
  import opened Naming
  import opened Records
  import opened Writer
  import opened Planning
  import opened Validation
  import Scaffold
  import Text

  class PrimaryCheckout {
    var chain: seq<Commit>
    var index: Tree
    var work: Tree
    var stray: bool
    var intents: map<Key, Intent>

    /** Whether the process may be killed during a call. */
    const killable: bool

    method Dies() returns (killed: bool)
      ensures killed ==> killable
    {
      killed := *;
      killed := killed && killable;
    }

    ghost function State(): Repo
      reads this
    {
      Repo(chain, index, work, stray, intents)
    }

    ghost predicate Valid()
      reads this
    {
      Inv(State())
    }

    // ---- Applying files -----------------------------------------------------

    /** `apply_files`: every destination is checked before any is changed. */
    method ApplyFiles(files: seq<WriteFile>) returns (outcome: Option<Error>, crashed: bool)
      requires DistinctPaths(files)
      modifies this`work, this`stray
      ensures outcome.Some? <==> !(forall file | file in files :: Accepts(old(work), file))
      ensures outcome.Some? ==> work == old(work) && !crashed
      ensures stray == old(stray) || (stray && crashed)
      ensures Wrote(old(work), work, files)
      ensures outcome.None? && !crashed ==> work == Overlay(old(work), files)
      ensures !killable ==> !crashed
    {
      hide Overlay;
      crashed := false;
      OverlayNothing(work, files);
      for i := 0 to |files|
        invariant forall j :: 0 <= j < i ==> Accepts(work, files[j])
      {
        if !Accepts(work, files[i]) {
          assert files[i] in files;
          return Some(Conflict), false;
        }
      }
      for i := 0 to |files|
        invariant work == Overlay(old(work), files[..i]) && stray == old(stray)
      {
        WriteNext(old(work), files, i);
        if !(files[i].path in work && work[files[i].path] == files[i].text) {
          crashed := Dies();
          if crashed {
            // Killed before the rename: the temporary file stays.
            stray := true;
            return None, true;
          }
          work := work[files[i].path := files[i].text];
          crashed := Dies();
          if crashed {
            assert work == Overlay(old(work), files[..i + 1]);
            return None, true;
          }
        }
      }
      assert files[..|files|] == files;
      return None, false;
    }

    // ---- Committing ---------------------------------------------------------

    /** `check_staged`: every staged path is one of the intent's files, and holds the
        new bytes or the expected ones. */
    method CheckStaged(head: Tree, files: seq<WriteFile>) returns (ok: bool)
      ensures ok <==> StagedOk(index, head, files)
      ensures ok <==> forall path | !Same(index, head, path) ::
                exists file | file in files && file.path == path ::
                  path in index && (index[path] == file.text || file.before == Some(index[path]))
    {
      var todo := set path | path in index.Keys + head.Keys && !Same(index, head, path);
      ghost var staged := todo;
      while todo != {}
        invariant todo <= staged
        invariant forall path | path in staged && path !in todo :: StagedPathOk(index, files, path)
      {
        var path :| path in todo;
        todo := todo - {path};
        if !StagedPathOk(index, files, path) {
          assert !Same(index, head, path);
          return false;
        }
      }
      forall path | !Same(index, head, path) ensures StagedPathOk(index, files, path) {
        assert path in staged;
      }
      return true;
    }

    /** `git add -- paths`, of files that are in the working tree. */
    method AddToIndex(files: seq<WriteFile>)
      requires DistinctPaths(files)
      requires forall file | file in files :: Has(work, file)
      modifies this`index
      ensures index == Overlay(old(index), files)
    {
      for i := 0 to |files|
        invariant index == Overlay(old(index), files[..i])
      {
        assert files[..i + 1][..i] == files[..i];
        assert files[i] in files;
        index := index[files[i].path := work[files[i].path]];
      }
      assert files[..|files|] == files;
    }

    /** `commit`: stage the intent's files and commit what they change, if anything. */
    method CommitFiles(key: Key, files: seq<WriteFile>) returns (error: Option<Error>, crashed: bool)
      requires chain != [] && DistinctPaths(files)
      requires forall file | file in files :: Has(work, file)
      modifies this`index, this`chain
      ensures error.Some? <==> !StagedOk(old(index), Head(old(State())), files)
      ensures error.Some? ==> chain == old(chain) && !crashed
      ensures index == old(index) || index == Overlay(old(index), files)
      ensures error.None? ==>
                var tree := Overlay(Head(old(State())), files);
                && (chain == old(chain)
                    || (tree != Head(old(State())) && chain == old(chain) + [Commit(tree, Some(key))]))
                && (!crashed && tree != Head(old(State())) ==> chain != old(chain))
                && index == tree
      ensures !killable ==> !crashed
    {
      hide Overlay;
      var head := chain[|chain| - 1].tree;
      crashed := false;
      var ok := CheckStaged(head, files);
      if !ok {
        return Some(Conflict), false;
      }
      AddToIndex(files);
      StagingStaysOk(old(index), head, files);
      ok := CheckStaged(head, files);
      assert ok;
      OverlayHas(old(index), files);
      StagedIsOverlay(index, head, files);
      crashed := Dies();
      if crashed {
        return None, true;
      }
      if index != head {
        chain := chain + [Commit(index, Some(key))];
        crashed := Dies();
        if crashed {
          return None, true;
        }
      }
      return None, false;
    }

    /** `verify_files`: the commit holds every file's text. */
    method VerifyFiles(files: seq<WriteFile>, commit: nat) returns (ok: bool)
      requires commit < |chain|
      ensures ok <==> forall file | file in files :: Has(chain[commit].tree, file)
    {
      for i := 0 to |files|
        invariant forall j :: 0 <= j < i ==> Has(chain[commit].tree, files[j])
      {
        if !Has(chain[commit].tree, files[i]) {
          assert files[i] in files;
          return false;
        }
      }
      return true;
    }

    /** `recover_commit`: whether HEAD is the commit an interrupted call made for this key. */
    method RecoverCommit(key: Key, intent: Intent) returns (ok: bool)
      requires chain != []
      ensures ok <==> Recoverable(State(), key, intent)
    {
      hide Files;
      var head := |chain| - 1;
      if head == 0 || head - 1 != intent.parent || chain[head].trailer != Some(key) {
        return false;
      }
      var files := Files(intent);
      var tree, before := chain[head].tree, chain[head - 1].tree;
      var changed := set path | path in tree.Keys + before.Keys && !Same(tree, before, path);
      var todo := changed;
      while todo != {}
        invariant todo <= changed
        invariant forall path | path in changed && path !in todo :: Names(files, path)
      {
        var path :| path in todo;
        todo := todo - {path};
        if !Names(files, path) {
          assert path in changed;
          return false;
        }
      }
      ok := VerifyFiles(files, head);
    }

    // ---- Finishing a planned write ------------------------------------------

    method SaveIntent(key: Key, intent: Intent)
      requires Valid() && key !in intents && IntentOk(chain, key, intent)
      modifies this`intents
      ensures Valid() && Evolves(old(State()), State())
      ensures intents == old(intents)[key := intent]
    {
      hide Inv, IntentOk, Evolves;
      SaveIntentKeepsInv(State(), key, intent);
      intents := intents[key := intent];
    }

    method ApplyPlanned(key: Key) returns (error: Option<Error>, crashed: bool)
      requires Valid() && key in intents && intents[key].receipt.None?
      requires intents[key].parent == |chain| - 1
      modifies this`work, this`stray
      ensures Valid() && Evolves(old(State()), State())
      ensures error.Some? ==> work == old(work) && !crashed
      ensures stray == old(stray) || (stray && crashed)
      ensures Wrote(old(work), work, Files(intents[key]))
      ensures error.Some? <==> !(forall file | file in Files(intents[key]) :: Accepts(old(work), file))
      ensures error.None? && !crashed ==> work == Overlay(old(work), Files(intents[key]))
      ensures error.None? && !crashed ==> forall file | file in Files(intents[key]) :: Has(work, file)
      ensures old(Resumable(State(), key)) ==>
                && error.None? && Resumable(State(), key)
                && (!crashed ==> Partial(State(), Files(intents[key]), |Files(intents[key])|))
      ensures !killable ==> !crashed
    {
      hide Inv, Overlay, Resumable, Partial, Accepts, Evolves;
      ghost var before := State();
      var files := Files(intents[key]);
      PlanOf(before, key);
      error, crashed := ApplyFiles(files);
      EditKeepsInv(before, work, stray, index);
      assert State() == before.(work := work, stray := stray);
      OverlayHas(before.work, files);
      if Resumable(before, key) {
        OverlayNothing(before.work, files);
        ghost var m: nat :| m <= |files| && work == Overlay(before.work, files[..m])
                            && (error.None? && !crashed ==> m == |files|) by { assert files[..|files|] == files; }
        ResumableApplies(before, key, m, stray);
      }
    }

    method CommitPlanned(key: Key) returns (error: Option<Error>, crashed: bool)
      requires Valid() && key in intents && intents[key].receipt.None?
      requires intents[key].parent == |chain| - 1
      requires forall file | file in Files(intents[key]) :: Has(work, file)
      modifies this`index, this`chain
      ensures Valid() && Evolves(old(State()), State())
      ensures error.Some? ==> chain == old(chain) && !crashed
      ensures error.Some? <==> !StagedOk(old(index), Head(old(State())), Files(intents[key]))
      ensures index == old(index) || index == Overlay(old(index), Files(intents[key]))
      ensures var tree := Overlay(Head(old(State())), Files(intents[key]));
              && (chain == old(chain)
                  || (tree != Head(old(State())) && chain == old(chain) + [Commit(tree, Some(key))]))
              && (error.None? && !crashed ==>
                    Head(State()) == tree && (chain == old(chain) ==> tree == Head(old(State()))))
      ensures old(Partial(State(), Files(intents[key]), |Files(intents[key])|)) ==>
                error.None? && Resumable(State(), key)
      ensures !killable ==> !crashed
    {
      hide Inv, Overlay, Resumable, Partial, StagedOk, Evolves, Has, DistinctPaths, Fits, Sound, Honest;
      ghost var before := State();
      var files := Files(intents[key]);
      PlanOf(before, key);
      error, crashed := CommitFiles(key, files);
      EditKeepsInv(before, work, stray, index);
      ghost var staged := before.(index := index);
      if chain != before.chain {
        OwnCommitKeepsInv(staged, key);
        EvolvesTransitive(before, staged, State());
        assert State() == staged.(chain := before.chain + [Commit(Overlay(Head(before), files), Some(key))]);
      } else {
        assert State() == staged;
      }
      if Partial(before, files, |files|) {
        PartialStages(before, files);
        CommitResumes(before, key, State());
      }
    }

    /** Write the files on their parent, check the corpus they give, and commit them. */
    method CommitOnParent(key: Key) returns (error: Option<Error>, crashed: bool)
      requires Valid() && key in intents && intents[key].receipt.None?
      requires intents[key].parent == |chain| - 1
      modifies this`work, this`stray, this`index, this`chain
      ensures Valid() && Evolves(old(State()), State())
      ensures error.Some? ==> chain == old(chain) && !crashed
      ensures stray == old(stray) || (stray && crashed)
      ensures Confined(old(State()), State(), key)
      ensures error.None? && !crashed ==>
                && (forall file | file in Files(intents[key]) :: Has(Head(State()), file))
                && (chain == old(chain) || (|chain| == |old(chain)| + 1 && chain[|chain| - 1].trailer == Some(key)))
      ensures error.Some? ==> !old(Finishable(State(), key))
      ensures error.None? && !crashed ==> old(Finishable(State(), key))
      ensures old(Resumable(State(), key)) ==> error.None? && Resumable(State(), key)
      ensures !killable ==> !crashed
    {
      hide Inv, Overlay, Resumable, Partial, Sound, Evolves, Accepts, StagedOk, Wrote, Files, Has, Evolves;
      ghost var before := State();
      PlanOf(before, key);
      EvolvesReflexive(before);
      error, crashed := ApplyPlanned(key);
      if error.Some? || crashed {
        return;
      }
      ghost var applied := State();
      var ok := TreeIsSound(work);
      if !ok {
        if Resumable(before, key) {
          PartialIsPlanned(applied, Files(intents[key]));
        }
        return Some(Invalid), false;
      }
      error, crashed := CommitPlanned(key);
      EvolvesTransitive(before, applied, State());
      OverlayHas(Head(applied), Files(intents[key]));
    }

    /** Reach the commit that holds the intent's files: HEAD when it is this key's own
        commit, else a commit made now, or the parent itself when nothing changes. */
    method ReachCommit(key: Key) returns (error: Option<Error>, crashed: bool)
      requires Valid() && key in intents && intents[key].receipt.None?
      modifies this`work, this`stray, this`index, this`chain
      ensures Valid() && Evolves(old(State()), State())
      ensures error.Some? ==> chain == old(chain) && !crashed
      ensures stray == old(stray) || (stray && crashed)
      ensures Confined(old(State()), State(), key)
      ensures error.None? && !crashed ==>
                && (forall file | file in Files(intents[key]) :: Has(Head(State()), file))
                && (|chain| - 1 == intents[key].parent
                    || (|chain| - 1 == intents[key].parent + 1 && chain[|chain| - 1].trailer == Some(key)))
      ensures error.Some? ==> !old(Finishable(State(), key))
      ensures error.None? && !crashed ==> old(Finishable(State(), key))
      ensures old(Resumable(State(), key)) ==> error.None? && Resumable(State(), key)
      ensures !killable ==> !crashed
    {
      hide Inv, Overlay, Resumable, Partial, Sound, Evolves, Accepts, StagedOk, Wrote, Files, Has;
      ghost var before := State();
      var intent := intents[key];
      PlanOf(before, key);
      if |chain| - 1 == intent.parent {
        hide Confined, Finishable;
        error, crashed := CommitOnParent(key);
        return;
      }
      RecoverableIsOwnCommit(before, key);
      if Resumable(before, key) {
        ResumableRecovers(before, key);
      }
      EvolvesReflexive(before);
      var ok := RecoverCommit(key, intent);
      return if ok then None else Some(Invalid), false;
    }

    /** The receipt is saved last; a receipt already saved is replayed unchanged. */
    method Finish(key: Key) returns (outcome: Outcome)
      requires Valid() && key in intents
      modifies this
      ensures Valid() && Evolves(old(State()), State())
      ensures outcome.Done? ==> Acknowledged(State(), key, outcome.receipt)
      ensures old(intents[key].receipt.Some?) ==>
                outcome.Done? && outcome.receipt.replayed && State() == old(State())
      ensures outcome.Done? ==> outcome.receipt.request == old(intents[key]).request
      ensures key in intents && SamePlan(old(intents[key]), intents[key])
      ensures Confined(old(State()), State(), key)
      ensures outcome.Rejected? ==> chain == old(chain) && intents == old(intents)
      ensures stray == old(stray) || (stray && outcome.Crashed?)
      ensures intents.Keys == old(intents.Keys)
      ensures outcome.Rejected? ==> !old(Finishable(State(), key))
      ensures outcome.Done? || intents[key].receipt.Some? ==> old(Finishable(State(), key))
      ensures old(Resumable(State(), key)) ==>
                !outcome.Rejected? && Resumable(State(), key)
      ensures !killable ==> if old(Finishable(State(), key)) then outcome.Done? else outcome.Rejected?
      ensures outcome.Done? ==> (outcome.receipt.replayed <==> old(intents[key].receipt.Some?))
    {
      hide Inv, Overlay, Resumable, Evolves, Honest, Sound, Accepts, StagedOk;
      ghost var before := State();
      PlanOf(before, key);
      var intent := intents[key];
      EditKeepsInv(before, work, stray, index);
      assert State() == before.(work := work, stray := stray, index := index);
      if intent.receipt.Some? {
        ReceiptCommit(before, key);
        var ok := VerifyFiles(Files(intent), intent.receipt.value.commit);
        assert ok;
        return Done(intent.receipt.value.(replayed := true));
      }
      var error, crashed := ReachCommit(key);
      if error.Some? {
        return Rejected(error.value);
      }
      if crashed {
        return Crashed;
      }
      ghost var reached := State();
      var commit := |chain| - 1;
      var ok := VerifyFiles(Files(intent), commit);
      assert ok;
      var receipt := Receipt(intent.id, intent.path, commit, commit != intent.parent,
                             intent.request, intent.text, false);
      NewReceiptIsHonest(reached, key, receipt);
      SaveReceiptKeepsInv(reached, key, receipt);
      intents := intents[key := intent.(files := Files(intent), receipt := Some(receipt))];
      EvolvesTransitive(before, reached, State());
      ReceiptedIsResumable(State(), key);
      crashed := Dies();
      if crashed {
        return Crashed;
      }
      return Done(receipt);
    }

    // ---- Requests -----------------------------------------------------------

    /** The next id of a kind, for a reservation on a clean, valid checkout. */
    method AllocateId(request: Request) returns (id: Result<RecordId>)
      requires Valid() && request.Reserve?
      ensures id.Success? <==> Allocatable(State(), request)
      ensures id.Success? <==>
              && Clean(State()) && Sound(work) && RecordId(request.kind, 999) !in RecordsOf(work)
              && forall parent | parent in request.derivedFrom :: parent in RecordsOf(work)
      ensures id.Success? ==> IsNext(State(), request.kind, id.value)
    {
      hide IntentOk, Attributed, WellFormed, Readable, IsHighest;
      if !(index == chain[|chain| - 1].tree && work == index && !stray) {
        return Failure(Invalid);
      }
      var ok := TreeIsSound(work);
      if !ok {
        return Failure(Invalid);
      }
      var records := RecordsOf(work);
      if exists parent :: parent in request.derivedFrom && parent !in records {
        return Failure(InvalidInput);
      }
      var highest := HighestNumber(records.Keys, request.kind);
      SoundIsNumbered(work, request.kind, highest);
      if highest + 1 > MAX_NUMBER {
        return Failure(Invalid);
      }
      return Success(RecordId(request.kind, highest + 1));
    }

    /** Plan and finish a reservation whose key has not been used. */
    method ReserveNew(requestKey: string, request: Request, ascii: string, today: string) returns (outcome: Outcome)
      requires Valid() && request.Reserve? && RequestKey(requestKey) !in intents
      modifies this
      ensures Valid() && Evolves(old(State()), State())
      ensures outcome.Done? ==>
                Acknowledged(State(), RequestKey(requestKey), outcome.receipt) && outcome.receipt.request == request
      ensures Confined(old(State()), State(), RequestKey(requestKey))
      ensures outcome.Rejected? <==> !Allocatable(old(State()), request)
      ensures outcome.Rejected? ==> State() == old(State())
      ensures stray && !old(stray) ==> outcome.Crashed?
      ensures !killable ==> !outcome.Crashed?
      ensures outcome.Done? ==> !outcome.receipt.replayed
      ensures !outcome.Rejected? ==>
                && Resumable(State(), RequestKey(requestKey))
                && RequestKey(requestKey) in intents
                && intents[RequestKey(requestKey)].parent == |old(chain)| - 1
                && PlansNew(old(State()), request, ascii, today, intents[RequestKey(requestKey)])
    {
      hide Inv, Resumable, Evolves, Overlay, IntentOk, Allocatable;
      hide IsNext, PlansNew, SamePlan, Confined, Scaffold.NewRecord, NewFiles, Acknowledged;
      ghost var before := State();
      EvolvesReflexive(before);
      ConfinedReflexive(before, RequestKey(requestKey));
      ChainIsNotEmpty(before);
      var next := AllocateId(request);
      if next.Failure? {
        return Rejected(next.error);
      }
      var id := next.value;
      NextIsSmall(before, request.kind, id);
      var path := Scaffold.NewPath(id, ascii);
      var text := Scaffold.NewRecord(id, request.title, ascii, request.body, request.tags, request.derivedFrom, today);
      NewRecordIsPlanned(before, requestKey, request, id, ascii, today);
      SaveIntent(RequestKey(requestKey), NewIntent(|chain| - 1, request, id, path, text));
      AllocatableIsClean(before, request);
      outcome := FinishNew(RequestKey(requestKey), before);
      NewIntentPlansNew(before, request, id, ascii, today, intents[RequestKey(requestKey)]);
    }

    /** `reserve`: allocate the next id of a kind and commit its new record. A fresh key is
        refused exactly when the reservation is not allowed; otherwise its plan takes the
        next number and holds the scaffold of the request. */
    method Reserve(requestKey: string, request: Request, ascii: string, today: string) returns (outcome: Outcome)
      requires Valid() && request.Reserve?
      modifies this
      ensures Valid() && old(State()).chain != []
      ensures var trimmed := request.(title := Text.Trim(request.title));
              && Serviced(old(State()), RequestKey(requestKey), trimmed, outcome, State())
              && (RequestKey(requestKey) !in old(intents) ==>
                    && (outcome.Rejected? <==>
                        !(1 <= Text.Utf8Length(requestKey) <= 256 && Text.Trim(request.title) != ""
                          && Allocatable(old(State()), request)))
                    && (!outcome.Rejected? ==>
                          PlansNew(old(State()), trimmed, ascii, today, intents[RequestKey(requestKey)])))
      ensures !killable ==> !outcome.Crashed?
    {
      hide Inv, Resumable, Evolves, Overlay, Allocatable, IsNext, Acknowledged, Confined, Text.Trim, Scaffold.NewRecord;
      hide Finishable, Serviced, Clean;
      ghost var before := State();
      EvolvesReflexive(before);
      ConfinedReflexive(before, RequestKey(requestKey));
      ChainIsNotEmpty(before);
      var title := Text.Trim(request.title);
      Text.TrimIsTrimmed(request.title);
      var key := RequestKey(requestKey);
      var trimmed := request.(title := title);
      if !(1 <= Text.Utf8Length(requestKey) <= MAX_KEY) || title == "" {
        RefusedIsServiced(before, key, trimmed, InvalidInput);
        return Rejected(InvalidInput);
      }
      AllocatableIgnoresTitle(before, request, title);
      if key !in intents {
        outcome := ReserveNew(requestKey, trimmed, ascii, today);
        if outcome.Rejected? {
          RefusedIsServiced(before, key, trimmed, outcome.error);
        } else {
          AllocatableIsClean(before, trimmed);
          ChainIsNotEmpty(State());
          NewIsServiced(before, key, trimmed, outcome, State());
        }
      } else if intents[key].request != trimmed {
        RefusedIsServiced(before, key, trimmed, Invalid);
        outcome := Rejected(Invalid);
      } else {
        outcome := Finish(key);
        ChainIsNotEmpty(State());
        RetryIsServiced(before, key, trimmed, outcome, State());
      }
    }

    /** Finish a plan just saved, or crash before starting to. */
    method FinishNew(key: Key, ghost before: Repo) returns (outcome: Outcome)
      requires Valid() && key in intents && Clean(State())
      requires Evolves(before, State()) && before == State().(intents := before.intents)
      requires before.intents - {key} == intents - {key}
      requires intents[key].receipt.None? && intents[key].parent == |chain| - 1
      modifies this
      ensures Valid() && Evolves(before, State())
      ensures outcome.Done? ==> Acknowledged(State(), key, outcome.receipt)
      ensures outcome.Done? ==> outcome.receipt.request == old(intents[key]).request
      ensures !outcome.Rejected?
      ensures key in intents && SamePlan(old(intents[key]), intents[key]) && Resumable(State(), key)
      ensures intents[key].parent == |old(chain)| - 1
      ensures Confined(before, State(), key)
      ensures stray == old(stray) || (stray && outcome.Crashed?)
      ensures !killable ==> outcome.Done?
      ensures outcome.Done? ==> !outcome.receipt.replayed
    {
      hide Inv, Resumable, Overlay, Acknowledged, Clean, Evolves, Finishable;
      ghost var saved := State();
      PlanIsResumable(saved, key);
      var crashed := Dies();
      if crashed {
        return Crashed;
      }
      outcome := Finish(key);
      EvolvesTransitive(before, saved, State());
      ConfinedAfterSaving(before, saved, State(), key);
    }

    /** `rewrite`: replace one record's text under its expected blob. A rewrite not asked
        before is refused exactly when it is not allowed. */
    method Rewrite(request: Request, verdictStatus: map<string, string>, accepted: bool, today: string)
      returns (outcome: Outcome)
      requires Valid() && !request.Reserve?
      modifies this
      ensures Valid() && old(State()).chain != []
      ensures Serviced(old(State()), RewriteKey(request), request, outcome, State())
      ensures request.ReviseQuestion? && request.edit.title.Some? && Text.Blank(request.edit.title.value) ==>
                outcome == Rejected(InvalidInput) && State() == old(State())
      ensures RewriteKey(request) !in old(intents) ==>
                && (outcome.Rejected? <==> !Rewritable(old(State()), request, verdictStatus, accepted, today))
                && (!outcome.Rejected? ==>
                      && RewriteKey(request) in intents
                      && PlansRewrite(old(State()), request, verdictStatus, today, intents[RewriteKey(request)])
                      && intents[RewriteKey(request)].text
                         == RewrittenText(old(State()), request, verdictStatus, accepted, today))
      ensures !killable ==> !outcome.Crashed?
    {
      hide Inv, Resumable, Evolves, Overlay, IntentOk, Rewritable, RewrittenText, Acknowledged, Confined;
      hide Finishable, Serviced, BlankQuestionTitle, WritesRequest, RecordsOf;
      ghost var before := State();
      BlankTitleIsBlank(request);
      EvolvesReflexive(before);
      ConfinedReflexive(before, RewriteKey(request));
      ChainIsNotEmpty(before);
      if BlankQuestionTitle(request) {
        BlankTitleIsNotRewritable(before, request, verdictStatus, accepted, today);
        RefusedIsServiced(before, RewriteKey(request), request, InvalidInput);
        return Rejected(InvalidInput);
      }
      var key := RewriteKey(request);
      if key in intents {
        PlanServes(before, key);
        outcome := Finish(key);
        ChainIsNotEmpty(State());
        RetryIsServiced(before, key, request, outcome, State());
        return;
      }
      var plan := PlanRewrite(request, verdictStatus, accepted, today);
      if plan.Failure? {
        RefusedIsServiced(before, key, request, plan.error);
        return Rejected(plan.error);
      }
      var (path, text) := plan.value;
      SaveIntent(key, RewriteIntent(|chain| - 1, request, path, text));
      outcome := FinishNew(key, before);
      ChainIsNotEmpty(State());
      NewIsServiced(before, key, request, outcome, State());
      RewrittenTextWrites(before, request, verdictStatus, accepted, today);
      RewritableIsReadable(before, request, verdictStatus, accepted, today);
    }

    /** What a rewrite would write, and where, on a clean, valid checkout. */
    method PlanRewrite(request: Request, verdictStatus: map<string, string>, accepted: bool, today: string)
      returns (plan: Result<(Path, Content)>)
      requires Valid() && !request.Reserve? && !BlankQuestionTitle(request)
      ensures plan.Success? <==> Rewritable(State(), request, verdictStatus, accepted, today)
      ensures plan.Success? ==>
                && var (path, text) := plan.value;
                && Clean(State())
                && text == RewrittenText(State(), request, verdictStatus, accepted, today)
                && request.id in RecordsOf(work) && path == RecordsOf(work)[request.id].path
                && IntentOk(chain, RewriteKey(request), RewriteIntent(|chain| - 1, request, path, text))
    {
      hide IntentOk, Attributed, WellFormed, Readable, Decodes, RecordsOf, Render;
      if !(index == chain[|chain| - 1].tree && work == index && !stray) {
        return Failure(Invalid);
      }
      var ok := TreeIsSound(work);
      if !ok {
        return Failure(Invalid);
      }
      var records := RecordsOf(work);
      if request.id !in records {
        return Failure(NotFound);
      }
      RecordInItsFile(work, request.id);
      var record := records[request.id];
      var text := Render(records, record, request, verdictStatus, accepted, today);
      if record.blob != request.blob {
        // A stale request that would not render either is told the latter.
        return Failure(if text.Failure? then text.error else Conflict);
      }
      if text.Failure? {
        return Failure(text.error);
      }
      RenderDecodes(records, record, request, verdictStatus, accepted, today);
      var issues := ValidateRecords(records[request.id := ReadBack(record.path, text.value)]);
      if issues != [] {
        return Failure(Invalid);
      }
      RewriteIsPlanned(State(), request, record.path, text.value);
      return Success((record.path, text.value));
    }
  }

  lemma BlankTitleIsBlank(request: Request)
    ensures BlankQuestionTitle(request) <==>
            request.ReviseQuestion? && request.edit.title.Some? && Text.Blank(request.edit.title.value)
  {
    hide Text.Trim, Text.Blank;
    if request.ReviseQuestion? && request.edit.title.Some? {
      Text.TrimOfBlank(request.edit.title.value);
    }
  }

  lemma BlankTitleIsNotRewritable(s: Repo, request: Request, verdictStatus: map<string, string>,
                                    accepted: bool, today: string)
    requires s.chain != [] && !request.Reserve? && BlankQuestionTitle(request)
    ensures !Rewritable(s, request, verdictStatus, accepted, today)
  {
    hide Clean, Sound, WellFormed;
  }

  lemma RewritableIsReadable(s: Repo, request: Request, verdictStatus: map<string, string>,
                             accepted: bool, today: string)
    requires s.chain != [] && !request.Reserve? && Rewritable(s, request, verdictStatus, accepted, today)
    ensures Readable(s.work)
  {
    hide WellFormed, RecordsOf, Render;
  }

  lemma NextIsSmall(s: Repo, kind: Kind, id: RecordId)
    requires IsNext(s, kind, id)
    ensures id.kind == kind && id.number < 1000
  {
  }

  lemma AllocatableIsClean(s: Repo, request: Request)
    requires s.chain != [] && request.Reserve? && Allocatable(s, request)
    ensures Clean(s)
  {
  }

  lemma AllocatableIgnoresTitle(s: Repo, request: Request, title: string)
    requires s.chain != [] && request.Reserve?
    ensures Allocatable(s, request.(title := title)) == Allocatable(s, request)
  {
    hide Sound, RecordsOf;
  }

  lemma ChainIsNotEmpty(s: Repo)
    requires Inv(s)
    ensures s.chain != []
  {
    hide IntentOk, Attributed;
  }

  lemma PlanServes(s: Repo, key: Key)
    requires Inv(s) && key in s.intents && key.RewriteKey?
    ensures s.intents[key].request == key.request
  {
    hide Sound, Overlay, Honest;
    assert IntentOk(s.chain, key, s.intents[key]);
  }

  lemma EvolvesReflexive(s: Repo)
    ensures Evolves(s, s)
  {
  }

  lemma ConfinedReflexive(s: Repo, key: Key)
    requires Inv(s)
    ensures s.chain != [] && Confined(s, s, key)
  {
    hide IntentOk, Attributed;
  }

  lemma SoundIsNumbered(tree: Tree, kind: Kind, highest: nat)
    requires Sound(tree) && IsHighest(RecordsOf(tree).Keys, kind, highest)
    ensures RecordId(kind, MAX_NUMBER) !in RecordsOf(tree) <==> highest < MAX_NUMBER
  {
    hide Readable, Acyclic, RecordsOf;
    HighestBelow(RecordsOf(tree).Keys, kind, highest, MAX_NUMBER);
  }

  lemma ReceiptCommit(s: Repo, key: Key)
    requires Inv(s) && key in s.intents && s.intents[key].receipt.Some?
    ensures var receipt := s.intents[key].receipt.value;
            && receipt.commit < |s.chain| && !receipt.replayed && receipt.request == s.intents[key].request
            && (forall file | file in Files(s.intents[key]) :: Has(s.chain[receipt.commit].tree, file))
  {
    hide Inv, Overlay, Sound;
    PlanOf(s, key);
  }

  /** A fully written, untouched checkout passes both staged checks. */
  lemma PartialStages(s: Repo, files: seq<WriteFile>)
    requires s.chain != [] && DistinctPaths(files) && Partial(s, files, |files|)
    ensures StagedOk(s.index, Head(s), files)
    ensures Overlay(s.index, files) == Overlay(Head(s), files)
  {
    assert files[..|files|] == files && files[..0] == [];
    OverlayTwice(Head(s), files, |files|, |files|);
    OverlayStages(Head(s), files);
  }

  lemma OverlayStages(head: Tree, files: seq<WriteFile>)
    requires DistinctPaths(files)
    ensures StagedOk(Overlay(head, files), head, files)
  {
    forall path | !Same(Overlay(head, files), head, path) ensures StagedPathOk(Overlay(head, files), files, path) {
      OverlayAt(head, files, path);
      var i :| 0 <= i < |files| && files[i].path == path;
      assert files[i] in files;
    }
  }

  lemma PartialIsPlanned(s: Repo, files: seq<WriteFile>)
    requires s.chain != [] && Partial(s, files, |files|)
    ensures s.work == Overlay(Head(s), files)
  {
    assert files[..|files|] == files;
  }

  /** Staging or committing a fully written checkout leaves it resumable. */
  lemma CommitResumes(s: Repo, key: Key, t: Repo)
    requires s.chain != [] && key in s.intents && s.intents[key].parent == |s.chain| - 1
    requires var files := Files(s.intents[key]);
             && Partial(s, files, |files|) && t.work == s.work && t.intents == s.intents
             && t.index == Overlay(Head(s), files)
             && (t.chain == s.chain || t.chain == s.chain + [Commit(t.index, Some(key))])
    ensures Resumable(t, key)
  {
    hide Overlay;
    var files := Files(s.intents[key]);
    if t.chain == s.chain {
      assert Partial(t, files, |files|);
    }
  }

  lemma FilesAreNamed(files: seq<WriteFile>)
    ensures forall file | file in files :: Names(files, file.path)
  {
    forall file | file in files ensures Names(files, file.path) {
      var i :| 0 <= i < |files| && files[i] == file;
    }
  }

  /** An index that passes the staged check and holds the files is HEAD with just them replaced. */
  lemma StagedIsOverlay(index: Tree, head: Tree, files: seq<WriteFile>)
    requires DistinctPaths(files) && StagedOk(index, head, files)
    requires forall file | file in files :: Has(index, file)
    ensures index == Overlay(head, files)
  {
    FilesAreNamed(files);
    assert forall path :: !Names(files, path) ==> !StagedPathOk(index, files, path);
    OverlayIs(head, files, index);
  }
}
