/** What every repository call keeps, whatever its arguments and whoever calls it. */
module SagaInvariant {
  import opened Manifests
  import opened SagaModel

  /** Servers that were once proven to hold a blob. */
  type Holdings = set<(Server, Hash)>

  /** `server` was proven to hold everything `root` needs. */
  ghost predicate HoldsAll(needs: (Hash, Hash) -> bool, held: Holdings, server: Server, root: Hash) {
    forall h: Hash :: needs(root, h) ==> (server, h) in held
  }

  /** A saga's complete server holds everything its root needs. */
  ghost predicate Complete(needs: (Hash, Hash) -> bool, held: Holdings, x: Saga) {
    x.complete.Some? ==> HoldsAll(needs, held, x.complete.value, x.candidate.root)
  }

  /** The batch's inventory covers what the saga's root needs. */
  ghost predicate Covers(needs: (Hash, Hash) -> bool, s: Repo, b: BatchId, x: Saga) {
    forall h: Hash :: needs(x.candidate.root, h) ==> (b, h) in s.blobs
  }

  ghost predicate SafeInv(needs: (Hash, Hash) -> bool, held: Holdings, s: Repo) {
    && (forall b, server, h :: (b, server, h) in s.proofs ==> (server, h) in held)
    && (s.pending.Some? ==> forall h: Hash :: needs(s.pending.value.root, h) ==> h in s.pendingBlobs)
    && (forall b, h, x :: (b, h) in s.blobs && Holder(s, b, x) ==> Covers(needs, s, b, x))
    && (forall b :: b in s.sagas ==> Complete(needs, held, s.sagas[b]))
    && (forall b :: b in s.history ==> Complete(needs, held, s.history[b]))
  }

  ghost predicate Inv(needs: (Hash, Hash) -> bool, held: Holdings, s: Repo) {
    RepoInv(s) && SafeInv(needs, held, s)
  }

  lemma InitInv(needs: (Hash, Hash) -> bool, held: Holdings)
    ensures Inv(needs, held, EMPTY_REPO)
  {
  }

  lemma HeldMore(needs: (Hash, Hash) -> bool, held: Holdings, more: Holdings, s: Repo)
    requires Inv(needs, held, s) && held <= more
    ensures Inv(needs, more, s)
  {
  }

  lemma PendingKeeps(needs: (Hash, Hash) -> bool, held: Holdings, s: Repo, candidate: Candidate, inventory: set<Hash>)
    requires Inv(needs, held, s) && inventory != {}
    requires forall h: Hash :: needs(candidate.root, h) ==> h in inventory
    ensures Inv(needs, held, RecordPending(s, candidate, inventory))
  {
    var t := RecordPending(s, candidate, inventory);
    forall b, h, x | (b, h) in t.blobs && Holder(t, b, x) ensures Witnessed(t, b, x) && Covers(needs, t, b, x) {
      assert Holder(s, b, x);
      SameTables(needs, s, t, b, x);
    }
  }

  /** Inventories and proofs are judged by the tables alone. */
  lemma SameTables(needs: (Hash, Hash) -> bool, s: Repo, t: Repo, b: BatchId, x: Saga)
    requires s.blobs == t.blobs && s.proofs == t.proofs
    ensures Witnessed(s, b, x) <==> Witnessed(t, b, x)
    ensures Covers(needs, s, b, x) <==> Covers(needs, t, b, x)
  {
  }

  /** Two sagas that agree on what inventories are judged by. */
  ghost predicate Alike(x: Saga, y: Saga) {
    x.candidate == y.candidate && x.destinations == y.destinations
  }

  lemma AlikeJudged(needs: (Hash, Hash) -> bool, s: Repo, t: Repo, b: BatchId, x: Saga, y: Saga)
    requires Alike(x, y) && s.blobs == t.blobs && s.proofs == t.proofs
    requires Witnessed(s, b, x) && Covers(needs, s, b, x)
    ensures Witnessed(t, b, y) && Covers(needs, t, b, y)
  {
  }

  /** Updating one saga's progress. */
  lemma UpdateKeeps(needs: (Hash, Hash) -> bool, held: Holdings, s: Repo, b: BatchId, x: Saga)
    requires Inv(needs, held, s) && b in s.sagas && Alike(s.sagas[b], x) && Staged(x) && Complete(needs, held, x)
    ensures Inv(needs, held, s.(sagas := s.sagas[b := x]))
  {
    hide Staged, Witnessed, Covers, Complete;
    var t := s.(sagas := s.sagas[b := x]);
    OneSaga(s, b);
    assert t.sagas.Keys == s.sagas.Keys;
    forall d, h, y | (d, h) in t.blobs && Holder(t, d, y) ensures Witnessed(t, d, y) && Covers(needs, t, d, y) {
      var z := if d == b then s.sagas[b] else y;
      assert Holder(s, d, z);
      AlikeJudged(needs, s, t, d, z, y);
    }
  }

  lemma UpdateArchivedKeeps(needs: (Hash, Hash) -> bool, held: Holdings, s: Repo, b: BatchId, x: Saga)
    requires Inv(needs, held, s) && b in s.history && Alike(s.history[b], x) && Staged(x) && Complete(needs, held, x)
    ensures Inv(needs, held, s.(history := s.history[b := x]))
  {
    hide Staged, Witnessed, Covers, Complete;
    var t := s.(history := s.history[b := x]);
    forall d, h, y | (d, h) in t.blobs && Holder(t, d, y) ensures Witnessed(t, d, y) && Covers(needs, t, d, y) {
      var z := if d == b && b !in s.sagas then s.history[b] else y;
      assert Holder(s, d, z);
      AlikeJudged(needs, s, t, d, z, y);
    }
  }

  lemma CreditKeeps(needs: (Hash, Hash) -> bool, held: Holdings, s: Repo)
    requires Inv(needs, held, s)
    ensures Inv(needs, held, CreditPrior(s))
  {
    hide Witnessed, Covers;
    if CreditPrior(s) != s {
      var b := ActiveId(s).value;
      OneSaga(s, b);
      var current := s.sagas[b];
      var ids := PriorIds(s.history, current.candidate.root, current.destinations);
      var item := s.history[GreatestId(ids)];
      assert IsPrior(item, current.candidate.root, current.destinations);
      assert Complete(needs, held, item);
      UpdateKeeps(needs, held, s, b, current.(complete := item.complete));
    }
  }

  lemma ArchiveKeeps(needs: (Hash, Hash) -> bool, held: Holdings, s: Repo)
    requires Inv(needs, held, s)
    ensures Inv(needs, held, Archive(s)) && Archive(s).sagas == map[]
  {
    hide Staged, Witnessed, Covers, Complete;
    var t := Archive(s);
    if s.sagas.Keys != {} {
      var b := ActiveId(s).value;
      OneSaga(s, b);
      assert t.sagas == map[];
      forall d, h, y | (d, h) in t.blobs && Holder(t, d, y) ensures Witnessed(t, d, y) && Covers(needs, t, d, y) {
        assert Holder(s, d, y);
        SameTables(needs, s, t, d, y);
      }
    } else {
      assert s.sagas == map[];
    }
  }

  lemma InsertKeeps(needs: (Hash, Hash) -> bool, held: Holdings, s: Repo, destinations: seq<Server>)
    requires Inv(needs, held, s) && s.sagas == map[] && s.pending.Some? && !RowConflict(s, s.pending.value)
    ensures Inv(needs, held, InsertSaga(s, s.pending.value, destinations))
  {
    var candidate := s.pending.value;
    var b, t := candidate.batchId, InsertSaga(s, candidate, destinations);
    assert t.sagas.Keys == {b};
    forall d, h, y | (d, h) in t.blobs && Holder(t, d, y) ensures Witnessed(t, d, y) && Covers(needs, t, d, y) {
      if d == b {
        var g :| g in s.pendingBlobs;
        assert (b, g) in t.blobs && (b, g) !in s.blobs;
        assert forall server :: (b, server, g) !in t.proofs;
        assert Witnessed(t, d, y);
        forall h: Hash | needs(candidate.root, h) ensures (b, h) in t.blobs {
          assert h in s.pendingBlobs;
        }
      } else {
        assert (d, h) in s.blobs && Holder(s, d, y);
        OtherBatch(needs, s, t, d, y);
      }
    }
  }

  /** Rows of other batches do not matter. */
  lemma OtherBatch(needs: (Hash, Hash) -> bool, s: Repo, t: Repo, d: BatchId, y: Saga)
    requires forall h :: (d, h) in s.blobs <==> (d, h) in t.blobs
    requires forall server, h :: (d, server, h) in s.proofs <==> (d, server, h) in t.proofs
    ensures Witnessed(s, d, y) <==> Witnessed(t, d, y)
    ensures Covers(needs, s, d, y) <==> Covers(needs, t, d, y)
  {
    if Witnessed(s, d, y) {
      var h :| (d, h) in s.blobs && forall server :: (d, server, h) in s.proofs ==> server in y.destinations;
      assert (d, h) in t.blobs;
    }
    if Witnessed(t, d, y) {
      var h :| (d, h) in t.blobs && forall server :: (d, server, h) in t.proofs ==> server in y.destinations;
      assert (d, h) in s.blobs;
    }
  }

  lemma ClaimKeeps(needs: (Hash, Hash) -> bool, held: Holdings, s: Repo, destinations: seq<Server>)
    requires Inv(needs, held, s)
    ensures Inv(needs, held, ClaimPublication(s, destinations).0)
  {
    hide Inv, CreditPrior, Archive, InsertSaga, RowConflict;
    CreditKeeps(needs, held, s);
    var c := CreditPrior(s);
    if Decide(c, destinations) == Replace {
      ArchiveKeeps(needs, held, c);
      ArchivePending(c);
      if !RowConflict(Archive(c), c.pending.value) {
        InsertKeeps(needs, held, Archive(c), destinations);
      }
    }
  }

  lemma ArchivePending(s: Repo)
    ensures Archive(s).pending == s.pending && Archive(s).pendingBlobs == s.pendingBlobs
    ensures Archive(s).blobs == s.blobs && Archive(s).proofs == s.proofs
  {
  }

  lemma PruneKeeps(needs: (Hash, Hash) -> bool, held: Holdings, s: Repo, released: set<BatchId>)
    requires Inv(needs, held, s)
    ensures Inv(needs, held, PruneReleased(s, released))
  {
    hide Staged, Complete;
    var t := PruneReleased(s, released);
    forall d, h, y | (d, h) in t.blobs && Holder(t, d, y) ensures Witnessed(t, d, y) && Covers(needs, t, d, y) {
      assert Holder(s, d, y) && (d, h) in s.blobs;
      OtherBatch(needs, s, t, d, y);
    }
  }

  lemma ProofKeeps(needs: (Hash, Hash) -> bool, held: Holdings, s: Repo, b: BatchId, server: Server, h: Hash)
    requires Inv(needs, held, s) && (server, h) in held
    ensures RecordBlobProof(s, b, server, h).Some? ==> Inv(needs, held, RecordBlobProof(s, b, server, h).value)
  {
    hide Staged, Complete;
    if RecordBlobProof(s, b, server, h).Some? {
      var t := RecordBlobProof(s, b, server, h).value;
      forall d, g, y | (d, g) in t.blobs && Holder(t, d, y) ensures Witnessed(t, d, y) && Covers(needs, t, d, y) {
        assert Holder(s, d, y) && (d, g) in s.blobs;
        if d != b {
          OtherBatch(needs, s, t, d, y);
        } else {
          HolderIsByBatch(s, b, y);
          var w :| (d, w) in s.blobs && forall x :: (d, x, w) in s.proofs ==> x in y.destinations;
          assert (d, w) in t.blobs && forall x :: (d, x, w) in t.proofs ==> x in y.destinations;
        }
      }
    }
  }

  lemma HolderIsByBatch(s: Repo, b: BatchId, y: Saga)
    requires |s.sagas| <= 1 && Holder(s, b, y)
    ensures ByBatch(s, b) == Some(y)
  {
    if b in s.sagas { OneSaga(s, b); }
  }

  /** A complete server is one of the destinations and holds everything. */
  lemma CompleteServer(needs: (Hash, Hash) -> bool, held: Holdings, s: Repo, b: BatchId, server: Server, x: Saga)
    requires Inv(needs, held, s) && ServerComplete(s, b, server) && Holder(s, b, x)
    ensures server in x.destinations && HoldsAll(needs, held, server, x.candidate.root)
  {
    hide Staged, Complete;
    ServerCompleteMeaning(s, b, server);
    var g :| g in BlobsOf(s, b);
    assert (b, g) in s.blobs;
    assert Witnessed(s, b, x) && Covers(needs, s, b, x);
    var w :| (b, w) in s.blobs && forall y :: (b, y, w) in s.proofs ==> y in x.destinations;
    Proven(s, b, server, w);
    forall h: Hash | needs(x.candidate.root, h) ensures (server, h) in held {
      Proven(s, b, server, h);
    }
  }

  lemma Proven(s: Repo, b: BatchId, server: Server, h: Hash)
    requires ProvenOn(s, b, server) == BlobsOf(s, b) && (b, h) in s.blobs
    ensures (b, server, h) in s.proofs
  {
    assert h in BlobsOf(s, b);
    assert h in ProvenOn(s, b, server);
  }

  lemma CompleteKeeps(needs: (Hash, Hash) -> bool, held: Holdings, s: Repo, b: BatchId, server: Server)
    requires Inv(needs, held, s)
    ensures RecordCompleteServer(s, b, server).Some? ==> Inv(needs, held, RecordCompleteServer(s, b, server).value)
  {
    hide Witnessed, Covers, ServerComplete;
    if RecordCompleteServer(s, b, server).Some? {
      if ActiveId(s) == Some(b) {
        CompleteServer(needs, held, s, b, server, s.sagas[b]);
        UpdateKeeps(needs, held, s, b, s.sagas[b].(complete := Coalesce(s.sagas[b].complete, server)));
      } else if b in s.history {
        if b in s.sagas { OneSaga(s, b); }
        CompleteServer(needs, held, s, b, server, s.history[b]);
        UpdateArchivedKeeps(needs, held, s, b, s.history[b].(complete := Coalesce(s.history[b].complete, server)));
      }
    }
  }

  lemma SignedKeeps(needs: (Hash, Hash) -> bool, held: Holdings, s: Repo, b: BatchId, event: Event)
    requires Inv(needs, held, s)
    ensures RecordSigned(s, b, event).Some? ==> Inv(needs, held, RecordSigned(s, b, event).value)
  {
    hide Witnessed, Covers;
    if RecordSigned(s, b, event).Some? && b in s.sagas {
      OneSaga(s, b);
      UpdateKeeps(needs, held, s, b, s.sagas[b].(signed := Coalesce(s.sagas[b].signed, event)));
    }
  }

  lemma AcknowledgedKeeps(needs: (Hash, Hash) -> bool, held: Holdings, s: Repo, b: BatchId, relay: string)
    requires Inv(needs, held, s)
    ensures RecordAcknowledgement(s, b, relay).Some? ==> Inv(needs, held, RecordAcknowledgement(s, b, relay).value)
  {
    hide Witnessed, Covers;
    if RecordAcknowledgement(s, b, relay).Some? && b in s.sagas {
      OneSaga(s, b);
      UpdateKeeps(needs, held, s, b, s.sagas[b].(acknowledged := Coalesce(s.sagas[b].acknowledged, relay)));
    }
  }

  lemma CommittedKeeps(needs: (Hash, Hash) -> bool, held: Holdings, s: Repo, b: BatchId)
    requires Inv(needs, held, s)
    ensures CommitPublication(s, b).Some? ==> Inv(needs, held, CommitPublication(s, b).value)
  {
    hide Witnessed, Covers;
    if CommitPublication(s, b).Some? && b in s.sagas {
      OneSaga(s, b);
      UpdateKeeps(needs, held, s, b, s.sagas[b].(committed := true));
    }
  }

  lemma AdmittedKeeps(needs: (Hash, Hash) -> bool, held: Holdings, s: Repo, b: BatchId)
    requires Inv(needs, held, s)
    ensures MarkAdmitted(s, b).Some? ==> Inv(needs, held, MarkAdmitted(s, b).value)
  {
    hide Witnessed, Covers;
    if MarkAdmitted(s, b).Some? && b in s.sagas {
      OneSaga(s, b);
      UpdateKeeps(needs, held, s, b, s.sagas[b].(admitted := true));
    }
  }

  // ---- Refresh ----

  /** A refresh moves the inventory and proofs of the old id to the new one. */
  lemma RefreshRows(s: Repo, now: int, lead: int, d: BatchId)
    requires RepoInv(s) && RefreshDue(s, now, lead)
    ensures var t := BeginRefresh(s, now, lead).0; var b, next := ActiveId(s).value, NextBatchId(s);
      && next !in s.sagas && next !in s.history && b != next
      && (forall h :: (d, h) in t.blobs <==> (if d == next then (b, h) in s.blobs else d != b && (d, h) in s.blobs))
      && (forall x, h :: (d, x, h) in t.proofs <==> (if d == next then (b, x, h) in s.proofs else d != b && (d, x, h) in s.proofs))
  {
    hide Staged, Witnessed, Holder;
    var t := BeginRefresh(s, now, lead).0;
    var b, next := ActiveId(s).value, NextBatchId(s);
    assert b in s.sagas.Keys + s.history.Keys;
    forall h ensures (d, h) in t.blobs <==> (if d == next then (b, h) in s.blobs else d != b && (d, h) in s.blobs) {
      if (b, h) in s.blobs { assert (next, (b, h).1) in t.blobs; }
    }
    forall x, h ensures (d, x, h) in t.proofs <==> (if d == next then (b, x, h) in s.proofs else d != b && (d, x, h) in s.proofs) {
      if (b, x, h) in s.proofs { assert (next, (b, x, h).1, (b, x, h).2) in t.proofs; }
      if (next, x, h) in s.proofs { assert (next, h) in s.blobs; }
    }
  }

  lemma RefreshHolder(s: Repo, now: int, lead: int, d: BatchId, h: Hash, y: Saga)
    requires RepoInv(s) && RefreshDue(s, now, lead)
    requires var t := BeginRefresh(s, now, lead).0; (d, h) in t.blobs && Holder(t, d, y)
    ensures d == NextBatchId(s) ==>
      var x := Active(s).value; y.destinations == x.destinations && y.candidate.root == x.candidate.root
    ensures d != NextBatchId(s) ==> Holder(s, d, y) && d != ActiveId(s).value
  {
    hide Staged, Witnessed;
    RefreshRows(s, now, lead, d);
    OneSaga(s, ActiveId(s).value);
  }

  lemma RefreshKeeps(needs: (Hash, Hash) -> bool, held: Holdings, s: Repo, now: int, lead: int)
    requires Inv(needs, held, s)
    ensures Inv(needs, held, BeginRefresh(s, now, lead).0)
  {
    if RefreshDue(s, now, lead) {
      RefreshJudged(needs, held, s, now, lead);
      RefreshTables(needs, held, s, now, lead);
    }
  }

  lemma RefreshJudged(needs: (Hash, Hash) -> bool, held: Holdings, s: Repo, now: int, lead: int)
    requires Inv(needs, held, s) && RefreshDue(s, now, lead)
    ensures var t := BeginRefresh(s, now, lead).0;
      forall d, h, y :: (d, h) in t.blobs && Holder(t, d, y) ==> Witnessed(t, d, y) && Covers(needs, t, d, y)
  {
    hide Staged, Complete, BeginRefresh, NextBatchId;
    var t := BeginRefresh(s, now, lead).0;
    var b, next := ActiveId(s).value, NextBatchId(s);
    OneSaga(s, b);
    forall d, h, y | (d, h) in t.blobs && Holder(t, d, y) ensures Witnessed(t, d, y) && Covers(needs, t, d, y) {
      RefreshRows(s, now, lead, d);
      RefreshHolder(s, now, lead, d, h, y);
      if d == next {
        var x := s.sagas[b];
        assert (b, h) in s.blobs && Holder(s, b, x);
        var w :| (b, w) in s.blobs && forall v :: (b, v, w) in s.proofs ==> v in x.destinations;
        assert (next, w) in t.blobs && forall v :: (next, v, w) in t.proofs ==> v in y.destinations;
      } else {
        OtherBatch(needs, s, t, d, y);
      }
    }
  }

  lemma RefreshTables(needs: (Hash, Hash) -> bool, held: Holdings, s: Repo, now: int, lead: int)
    requires Inv(needs, held, s) && RefreshDue(s, now, lead)
    ensures var t := BeginRefresh(s, now, lead).0;
      && |t.sagas| <= 1 && t.pending == s.pending && t.pendingBlobs == s.pendingBlobs
      && (forall d :: d in t.sagas ==> Staged(t.sagas[d]) && t.sagas[d].candidate.batchId == d && Complete(needs, held, t.sagas[d]))
      && (forall d :: d in t.history ==> Staged(t.history[d]) && Complete(needs, held, t.history[d]))
      && (forall d, x, h :: (d, x, h) in t.proofs ==> (d, h) in t.blobs && (x, h) in held)
      && (forall d, h :: (d, h) in t.blobs ==> d in t.sagas || d in t.history)
  {
    RefreshBlobs(needs, held, s, now, lead);
    hide Witnessed, Covers, Holder, MoveBlobs, MoveProofs, Staged, Complete;
    var t := BeginRefresh(s, now, lead).0;
    var b, next := ActiveId(s).value, NextBatchId(s);
    OneSaga(s, b);
    assert s.sagas - {b} == map[];
    assert t.sagas.Keys == {next};
  }

  lemma RefreshBlobs(needs: (Hash, Hash) -> bool, held: Holdings, s: Repo, now: int, lead: int)
    requires Inv(needs, held, s) && RefreshDue(s, now, lead)
    ensures var t := BeginRefresh(s, now, lead).0;
      && (forall d, x, h :: (d, x, h) in t.proofs ==> (d, h) in t.blobs && (x, h) in held)
      && (forall d, h :: (d, h) in t.blobs ==> d in t.sagas || d in t.history)
  {
    hide Witnessed, Covers, Holder, Staged, Complete;
    var t := BeginRefresh(s, now, lead).0;
    var b, next := ActiveId(s).value, NextBatchId(s);
    OneSaga(s, b);
    assert t.sagas.Keys == {next};
    forall d, x, h | (d, x, h) in t.proofs ensures (d, h) in t.blobs && (x, h) in held {
      RefreshRows(s, now, lead, d);
      var e := if d == next then b else d;
      assert (e, x, h) in s.proofs;
      assert (e, h) in s.blobs;
    }
    forall d, h | (d, h) in t.blobs ensures d in t.sagas || d in t.history {
      RefreshRows(s, now, lead, d);
    }
  }
}
