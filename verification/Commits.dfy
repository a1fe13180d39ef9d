/** What the writer's commits say about each other, in any state its invariant allows. */
module Commits {
  import opened Basics
  import opened Naming
  import opened Records
  import opened Writer

  predicate Carries(s: Repo, i: nat, key: Key) {
    i < |s.chain| && s.chain[i].trailer == Some(key)
  }

  /** At most one commit carries a key; once its receipt is saved, that commit is the one
      the receipt names, and there is none exactly when the receipt says nothing changed. */
  lemma OneCommitPerKey(s: Repo, key: Key, i: nat, j: nat)
    requires Inv(s)
    ensures Carries(s, i, key) && Carries(s, j, key) ==> i == j
    ensures key in s.intents && s.intents[key].receipt.Some? ==>
              var receipt := s.intents[key].receipt.value;
              && (Carries(s, i, key) ==> i == receipt.commit)
              && (receipt.changed <==> Carries(s, receipt.commit, key))
  {
    hide Sound, Serves, Fits, Overlay, TakesNext;
    if Carries(s, i, key) { assert Attributed(s.chain, s.intents, i); }
    if Carries(s, j, key) { assert Attributed(s.chain, s.intents, j); }
    if key in s.intents && s.intents[key].receipt.Some? {
      PlanOf(s, key);
      var receipt := s.intents[key].receipt.value;
      if Carries(s, receipt.commit, key) { assert Attributed(s.chain, s.intents, receipt.commit); }
    }
  }

  lemma CommitHasPlan(s: Repo, i: nat)
    requires Inv(s) && i < |s.chain| && s.chain[i].trailer.Some?
    ensures var key := s.chain[i].trailer.value;
            && 0 < i && key in s.intents && i == s.intents[key].parent + 1
            && Planned(s.chain, key, s.intents[key])
            && s.chain[i].tree == Overlay(s.chain[i - 1].tree, Files(s.intents[key]))
            && s.chain[i].tree != s.chain[i - 1].tree
  {
    hide Overlay, Planned, Honest;
    assert Attributed(s.chain, s.intents, i);
    assert IntentOk(s.chain, s.chain[i].trailer.value, s.intents[s.chain[i].trailer.value]);
  }

  // ---- Every writer commit is a sound corpus --------------------------------

  /** Whatever else is in history, a commit the writer makes is a sound corpus made from one. */
  lemma WriterCommitIsSound(s: Repo, i: nat)
    requires Inv(s) && i < |s.chain| && s.chain[i].trailer.Some?
    ensures 0 < i && Sound(s.chain[i - 1].tree) && Sound(s.chain[i].tree)
  {
    hide Sound, Overlay, Inv, Serves, Fits, TakesNext;
    CommitHasPlan(s, i);
  }

  // ---- Rewrites -------------------------------------------------------------

  /** The corpus holds `bytes` as record `id`. */
  predicate Holds(tree: Tree, id: RecordId, bytes: Content) {
    exists path :: path in tree && path.RecordFile? && path.id == id && tree[path] == bytes
  }

  /** A rewrite's commit replaces, in its parent's tree, exactly the bytes its expected
      blob names, in that record's own file, by other bytes, and nothing else. */
  lemma RewriteReplacesItsBlob(s: Repo, i: nat, request: Request)
    requires Inv(s) && !request.Reserve? && Carries(s, i, RewriteKey(request))
    ensures 0 < i
    ensures var before, after := s.chain[i - 1].tree, s.chain[i].tree;
            exists path ::
              && path in before && path.RecordFile? && path.id == request.id && before[path] == request.blob
              && path in after && after[path] != request.blob && after == before[path := after[path]]
              && RewriteKey(request) in s.intents && after[path] == s.intents[RewriteKey(request)].text
  {
    hide Sound, Inv, TakesNext;
    CommitHasPlan(s, i);
    var intent := s.intents[RewriteKey(request)];
    var before := s.chain[i - 1].tree;
    var file := WriteFile(intent.path, intent.text, Some(request.blob));
    assert Files(intent) == [file] && file in Files(intent);
    assert Fits(before, file);
    assert [file][..0] == [];
    assert s.chain[i].tree == before[intent.path := intent.text];
    assert intent.text != request.blob ==> before[intent.path := intent.text][intent.path] != before[intent.path];
  }

  lemma RewriteIsFelt(s: Repo, i: nat, request: Request)
    requires Inv(s) && !request.Reserve? && Carries(s, i, RewriteKey(request))
    ensures 0 < i
    ensures Holds(s.chain[i - 1].tree, request.id, request.blob)
    ensures !Holds(s.chain[i].tree, request.id, request.blob)
  {
    hide Inv, WellFormed;
    RewriteReplacesItsBlob(s, i, request);
    WriterCommitIsSound(s, i);
  }

  /** Commit `k` puts back bytes its parent did not hold. */
  predicate Restores(s: Repo, k: nat, id: RecordId, bytes: Content) {
    0 < k < |s.chain| && !Holds(s.chain[k - 1].tree, id, bytes) && Holds(s.chain[k].tree, id, bytes)
  }

  /** Once history has left some bytes, it holds them again at `p` exactly when some
      commit since put them back and none has replaced them after that. */
  lemma {:induction false} HeldAgainIffRestored(s: Repo, i: nat, p: nat, id: RecordId, bytes: Content)
    requires i <= p < |s.chain| && !Holds(s.chain[i].tree, id, bytes)
    ensures Holds(s.chain[p].tree, id, bytes) <==>
            exists k :: i < k <= p && Restores(s, k, id, bytes)
                        && forall m :: k <= m <= p ==> Holds(s.chain[m].tree, id, bytes)
  {
    hide Holds;
    if i < p {
      HeldAgainIffRestored(s, i, p - 1, id, bytes);
      if Holds(s.chain[p].tree, id, bytes) {
        if Holds(s.chain[p - 1].tree, id, bytes) {
          var k :| i < k <= p - 1 && Restores(s, k, id, bytes)
                   && forall m :: k <= m <= p - 1 ==> Holds(s.chain[m].tree, id, bytes);
          assert forall m :: k <= m <= p ==> Holds(s.chain[m].tree, id, bytes);
        } else {
          assert Restores(s, p, id, bytes);
        }
      }
    }
  }

  /** No lost updates: of two rewrites that expect the same bytes of a record, the second
      is committed only after some commit in between put those bytes back. */
  lemma NoLostUpdate(s: Repo, i: nat, j: nat, first: Request, second: Request)
    requires Inv(s) && i < j && !first.Reserve? && !second.Reserve?
    requires Carries(s, i, RewriteKey(first)) && Carries(s, j, RewriteKey(second))
    requires first.id == second.id && first.blob == second.blob
    ensures exists k :: i < k < j && Restores(s, k, first.id, first.blob)
  {
    hide Inv, Holds;
    RewriteIsFelt(s, i, first);
    RewriteIsFelt(s, j, second);
    HeldAgainIffRestored(s, i, j - 1, first.id, first.blob);
  }

  // ---- Reservations ---------------------------------------------------------

  /** A reservation's commit adds a record under an id no record had, and its manifest if
      it is a research record, and changes nothing that was there. */
  lemma ReservationOnlyAdds(s: Repo, i: nat, key: Key)
    requires Inv(s) && Carries(s, i, key) && key.RequestKey?
    ensures 0 < i && key in s.intents
    ensures var before, after, id := s.chain[i - 1].tree, s.chain[i].tree, s.intents[key].id;
            && !HasRecord(before, id) && HasRecord(after, id)
            && (forall path | path in before :: path in after && after[path] == before[path])
            && (forall path | path in after && path !in before :: (path.RecordFile? || path.Manifest?) && path.id == id)
  {
    hide Sound, Inv, TakesNext, Overlay, HasRecord;
    CommitHasPlan(s, i);
    var intent := s.intents[key];
    var before, after := s.chain[i - 1].tree, s.chain[i].tree;
    var files := Files(intent);
    forall path | path in before ensures path in after && after[path] == before[path] {
      OverlayAt(before, files, path);
      assert Names(files, path) ==> exists file :: file in files && file.path == path;
    }
    forall path | path in after && path !in before
      ensures (path.RecordFile? || path.Manifest?) && path.id == intent.id {
      OverlayAt(before, files, path);
    }
    OverlayAt(before, files, intent.path);
    assert files[0].path == intent.path;
    RecordIsThere(after, intent.path);
  }

  /** What it adds: the planned text, and beside a research record the manifest that lists
      nothing. */
  lemma ReservationWrites(s: Repo, i: nat, key: Key)
    requires Inv(s) && Carries(s, i, key) && key.RequestKey?
    ensures key in s.intents && s.intents[key].path.RecordFile?
    ensures var plan, after := s.intents[key], s.chain[i].tree;
            && plan.path in after && after[plan.path] == plan.text
            && (plan.id.kind == Research ==>
                  var manifest := Manifest(plan.id, plan.path.slug);
                  manifest in after && after[manifest] == Plain("{\"inputs\":[]}\n"))
  {
    hide Sound, Inv, TakesNext, Overlay, HasRecord;
    CommitHasPlan(s, i);
    var intent := s.intents[key];
    var files := Files(intent);
    OverlayAt(s.chain[i - 1].tree, files, intent.path);
    assert files[0].path == intent.path;
    if intent.id.kind == Research {
      var manifest := Manifest(intent.id, intent.path.slug);
      assert files[1].path == manifest;
      OverlayAt(s.chain[i - 1].tree, files, manifest);
    }
  }

  lemma RecordIsThere(tree: Tree, path: Path)
    requires path in tree && path.RecordFile?
    ensures HasRecord(tree, path.id)
  {
  }

  /** No writer commit drops a record. */
  lemma WriterKeepsRecords(s: Repo, i: nat, id: RecordId)
    requires Inv(s) && i < |s.chain| && s.chain[i].trailer.Some?
    ensures 0 < i && (HasRecord(s.chain[i - 1].tree, id) ==> HasRecord(s.chain[i].tree, id))
  {
    hide Inv, Planned, Overlay, HasRecord;
    CommitHasPlan(s, i);
    OverlayKeepsRecords(s.chain[i - 1].tree, Files(s.intents[s.chain[i].trailer.value]), id);
  }

  lemma {:induction false} OverlayKeepsRecords(tree: Tree, files: seq<WriteFile>, id: RecordId)
    ensures HasRecord(tree, id) ==> HasRecord(Overlay(tree, files), id)
  {
    if files != [] {
      OverlayKeepsRecords(tree, files[..|files| - 1], id);
    }
  }

  /** Someone else's commit `k` removes record `id`. */
  predicate Drops(s: Repo, k: nat, id: RecordId) {
    && 0 < k < |s.chain| && s.chain[k].trailer.None?
    && HasRecord(s.chain[k - 1].tree, id) && !HasRecord(s.chain[k].tree, id)
  }

  lemma {:induction false} GoneOnlyIfDropped(s: Repo, i: nat, p: nat, id: RecordId)
    requires Inv(s) && i <= p < |s.chain|
    requires HasRecord(s.chain[i].tree, id) && !HasRecord(s.chain[p].tree, id)
    ensures exists k :: i < k <= p && Drops(s, k, id)
  {
    hide Inv, HasRecord;
    if HasRecord(s.chain[p - 1].tree, id) {
      if s.chain[p].trailer.Some? {
        WriterKeepsRecords(s, p, id);
      }
      assert Drops(s, p, id);
    } else {
      GoneOnlyIfDropped(s, i, p - 1, id);
    }
  }

  /** Two reservations, committed one after the other, got the same id only if someone
      else's commit in between removed the first one's record. */
  lemma ReservedIdsDiffer(s: Repo, i: nat, j: nat, first: Key, second: Key)
    requires Inv(s) && i < j && Carries(s, i, first) && Carries(s, j, second)
    requires first.RequestKey? && second.RequestKey?
    ensures first in s.intents && second in s.intents
    ensures s.intents[first].id == s.intents[second].id ==>
              exists k :: i < k < j && Drops(s, k, s.intents[first].id)
  {
    hide Inv, HasRecord;
    ReservationOnlyAdds(s, i, first);
    ReservationOnlyAdds(s, j, second);
    if s.intents[first].id == s.intents[second].id {
      GoneOnlyIfDropped(s, i, j - 1, s.intents[first].id);
    }
  }

  /** Two plans, finished or abandoned, hold the same id exactly when they are of one kind
      and the corpora they were made on had the same highest number of it. */
  lemma PlansShareIdIff(s: Repo, first: Key, second: Key)
    requires Inv(s) && first in s.intents && second in s.intents && first.RequestKey? && second.RequestKey?
    ensures var a, b := s.intents[first], s.intents[second];
            && 0 < a.id.number && b.parent < |s.chain| && Readable(s.chain[b.parent].tree)
            && (a.id == b.id <==>
                && a.request.Reserve? && b.request.Reserve? && a.request.kind == b.request.kind
                && IsHighest(RecordsOf(s.chain[b.parent].tree).Keys, a.id.kind, a.id.number - 1))
  {
    hide WellFormed, Readable, RecordsOf, Overlay, Honest, Fits, Attributed;
    assert IntentOk(s.chain, first, s.intents[first]);
    assert IntentOk(s.chain, second, s.intents[second]);
  }

  /** A reservation's receipt always names a commit of its own. */
  lemma ReservationIsCommitted(s: Repo, key: Key)
    requires Inv(s) && key in s.intents && key.RequestKey? && s.intents[key].receipt.Some?
    ensures Carries(s, s.intents[key].receipt.value.commit, key)
  {
    hide Sound, Overlay, TakesNext, Attributed;
    assert IntentOk(s.chain, key, s.intents[key]);
    var intent := s.intents[key];
    var file := WriteFile(intent.path, intent.text, None);
    assert Files(intent)[0] == file && file in Files(intent);
  }

  /** Receipts of two reserve keys share an id only when someone else's commit removed a
      reserved record and the number was given again. */
  lemma ReceiptsShareIdOnlyIfDropped(s: Repo, first: Key, second: Key)
    requires Inv(s) && first != second && first.RequestKey? && second.RequestKey?
    requires first in s.intents && s.intents[first].receipt.Some?
    requires second in s.intents && s.intents[second].receipt.Some?
    requires s.intents[first].receipt.value.id == s.intents[second].receipt.value.id
    ensures exists k :: Drops(s, k, s.intents[first].receipt.value.id)
  {
    hide Inv, Drops;
    PlanOf(s, first);
    PlanOf(s, second);
    ReservationIsCommitted(s, first);
    ReservationIsCommitted(s, second);
    var i, j := s.intents[first].receipt.value.commit, s.intents[second].receipt.value.commit;
    if i < j {
      ReservedIdsDiffer(s, i, j, first, second);
    } else {
      assert i != j;
      ReservedIdsDiffer(s, j, i, second, first);
    }
  }
}
