/** The saga methods of the write repository, over its tables. */
module SagaRepository {
  import opened Manifests
  import M = SagaModel
  import opened SagaModel
  import opened SagaInvariant

  /** The owner rows of a writer run that are of the listed sizes, and of the batch before the
      hand-over. */
  datatype RunOwner = RunOwner(owned: set<Hash>, batchOwned: set<Hash>)

  class WriteRepository {
    /** What each root needs, and what servers were proven to hold. */
    ghost const needs: (Hash, Hash) -> bool
    ghost var held: Holdings
    var pending: Option<Candidate>
    var pendingBlobs: set<Hash>
    var sagas: map<BatchId, Saga>
    var history: map<BatchId, Saga>
    var blobs: set<(BatchId, Hash)>
    var proofs: set<(BatchId, Server, Hash)>

    /** The contents of all tables. */
    function Tables(): Repo
      reads this
    {
      Repo(pending, pendingBlobs, sagas, history, blobs, proofs)
    }

    /** The invariant of the publication machine. */
    ghost predicate Safe()
      reads this
    {
      Inv(needs, held, Tables())
    }

    constructor (ghost needs: (Hash, Hash) -> bool)
      ensures Tables() == EMPTY_REPO && this.needs == needs && held == {} && Safe()
    {
      this.needs, held := needs, {};
      pending, pendingBlobs, sagas, history, blobs, proofs := None, {}, map[], map[], {}, {};
      new;
      InitInv(needs, {});
    }

    /** `recordPending`: replace what is pending.  Where a writer run hands over its candidate, every
        blob has to be owned by the run, and the batch has to end up owning as many blobs as the
        candidate counts; otherwise the transaction rolls back. */
    method RecordPending(candidate: Candidate, inventory: set<Hash>, blobCount: nat, run: Option<RunOwner>) returns (ok: bool)
      modifies this`pending, this`pendingBlobs
      ensures ok <==> run.None? || (inventory <= run.value.owned && |run.value.batchOwned + run.value.owned| == blobCount)
      ensures Tables() == if ok then M.RecordPending(old(Tables()), candidate, inventory) else old(Tables())
      ensures old(Safe()) && inventory != {} && (forall h: Hash :: needs(candidate.root, h) ==> h in inventory) ==> Safe()
    {
      hide Inv;
      if Safe() && inventory != {} && (forall h: Hash :: needs(candidate.root, h) ==> h in inventory) {
        PendingKeeps(needs, held, Tables(), candidate, inventory);
      }
      var before := pendingBlobs;
      ok := InsertPending(inventory, run);
      if ok && run.Some? && |run.value.batchOwned + run.value.owned| != blobCount {
        ok := false;
      }
      if !ok {
        pendingBlobs := before;
        return;
      }
      pending := Some(candidate);
    }

    /** Replace the pending inventory, row by row. */
    method InsertPending(inventory: set<Hash>, run: Option<RunOwner>) returns (ok: bool)
      modifies this`pendingBlobs
      ensures ok <==> run.None? || inventory <= run.value.owned
      ensures ok ==> pendingBlobs == inventory
    {
      pendingBlobs := {};
      var rest := inventory;
      while rest != {}
        invariant rest <= inventory && pendingBlobs == inventory - rest
        invariant run.Some? ==> inventory - rest <= run.value.owned
        decreases |rest|
      {
        var h :| h in rest;
        if run.Some? && h !in run.value.owned {
          return false;
        }
        pendingBlobs := pendingBlobs + {h};
        rest := rest - {h};
      }
      return true;
    }

    /** `claimPublication`, with the conditions as the code spells them. */
    method ClaimPublication(destinations: seq<Server>) returns (r: Option<Option<Saga>>)
      modifies this`pending, this`pendingBlobs, this`sagas, this`history, this`blobs, this`proofs
      ensures (Tables(), r) == M.ClaimPublication(old(Tables()), destinations)
      ensures old(Safe()) ==> Safe()
    {
      hide Inv;
      if Safe() {
        ClaimKeeps(needs, held, Tables(), destinations);
      }
      var current := Active(Tables());
      if current.Some? && current.value.complete.None? && current.value.signed.None? {
        var ids := PriorIds(history, current.value.candidate.root, current.value.destinations);
        if ids != {} {
          var prior := history[GreatestId(ids)];
          sagas := sagas[LeastId(sagas.Keys) := current.value.(complete := prior.complete)];
          current := Active(Tables());
        }
      }
      ghost var credited := Tables();
      assert credited == CreditPrior(old(Tables()));
      var candidate := pending;
      var supersedesUnsigned := current.Some? && candidate.Some? && current.value.signed.None?
                                && candidate.value.generation > current.value.candidate.generation;
      if current.Some? && ((!current.value.admitted && !supersedesUnsigned) || candidate.None?
                           || candidate.value.generation <= current.value.candidate.generation) {
        return Some(current);
      }
      if candidate.None? || destinations == [] {
        return Some(None);
      }
      r := Replace(candidate.value, destinations);
    }

    /** The replacing transaction: archive the superseded saga, insert the new one with its
        inventory, consume the pending candidate; roll back on a primary-key conflict. */
    method Replace(candidate: Candidate, destinations: seq<Server>) returns (r: Option<Option<Saga>>)
      requires pending == Some(candidate)
      requires Active(Tables()).Some? ==>
        && (Active(Tables()).value.admitted || Active(Tables()).value.signed.None?)
        && candidate.generation > Active(Tables()).value.candidate.generation
      modifies this`pending, this`pendingBlobs, this`sagas, this`history, this`blobs, this`proofs
      ensures var a := Archive(old(Tables()));
        if RowConflict(a, candidate) then r == None && Tables() == old(Tables())
        else Tables() == InsertSaga(a, candidate, destinations) && r == Some(Active(Tables()))
    {
      var savedSagas, savedHistory := sagas, history;
      var existing := Active(Tables());
      if existing.Some? && (existing.value.admitted || existing.value.signed.None?)
         && candidate.generation > existing.value.candidate.generation {
        var b := LeastId(sagas.Keys);
        history := history[b := existing.value];
        sagas := sagas - {b};
      }
      assert Tables() == Archive(old(Tables()));
      if candidate.batchId in sagas || exists h :: h in pendingBlobs && (candidate.batchId, h) in blobs {
        sagas, history := savedSagas, savedHistory;
        return None;
      }
      sagas := sagas[candidate.batchId := NewSaga(candidate, destinations)];
      blobs := blobs + set h | h in pendingBlobs :: (candidate.batchId, h);
      pending, pendingBlobs := None, {};
      return Some(Active(Tables()));
    }

    method BeginPublicationRefresh(now: int, lead: int) returns (started: bool)
      modifies this`sagas, this`history, this`blobs, this`proofs
      ensures (Tables(), started) == M.BeginRefresh(old(Tables()), now, lead)
      ensures old(Safe()) ==> Safe()
    {
      hide Inv;
      if Safe() {
        RefreshKeeps(needs, held, Tables(), now, lead);
      }
      var saga := Active(Tables());
      if saga.None? || !saga.value.committed || !saga.value.admitted || saga.value.signed.None?
         || saga.value.signed.value.expiration > now + lead {
        return false;
      }
      hide M.BeginRefresh;
      Renew(saga.value, now, lead);
      started := true;
    }

    /** The refreshing transaction. */
    method Renew(saga: Saga, now: int, lead: int)
      requires Active(Tables()) == Some(saga) && RefreshDue(Tables(), now, lead)
      modifies this`sagas, this`history, this`blobs, this`proofs
      ensures (Tables(), true) == M.BeginRefresh(old(Tables()), now, lead)
    {
      var b := LeastId(sagas.Keys);
      var next := GreatestId(sagas.Keys + history.Keys) + 1;
      if b !in history {
        history := history[b := saga];
      }
      sagas := sagas[next := Saga(saga.candidate.(batchId := next), saga.destinations, saga.complete, None, None, false, false)];
      MoveRows(b, next);
      sagas := sagas - {b};
      assert b in old(sagas).Keys + old(history).Keys;
      assert sagas == M.BeginRefresh(old(Tables()), now, lead).0.sagas;
    }

    /** Copy the inventory and the proofs to the new batch id, then delete the old rows. */
    method MoveRows(b: BatchId, next: BatchId)
      requires b != next
      modifies this`blobs, this`proofs
      ensures blobs == MoveBlobs(old(blobs), b, next) && proofs == MoveProofs(old(proofs), b, next)
    {
      blobs := blobs + set p | p in blobs && p.0 == b :: (next, p.1);
      proofs := proofs + set p | p in proofs && p.0 == b :: (next, p.1, p.2);
      proofs := set p | p in proofs && p.0 != b;
      blobs := set p | p in blobs && p.0 != b;
    }

    method RecordBlobProof(b: BatchId, server: Server, h: Hash) returns (ok: bool)
      modifies this`proofs
      ensures var after := M.RecordBlobProof(old(Tables()), b, server, h);
        ok == after.Some? && Tables() == if ok then after.value else old(Tables())
      ensures old(Safe()) && (server, h) in held ==> Safe()
    {
      hide Inv;
      if Safe() && (server, h) in held {
        ProofKeeps(needs, held, Tables(), b, server, h);
      }
      var saga := ByBatch(Tables(), b);
      if saga.None? || server !in saga.value.destinations || (b, h) !in blobs {
        return false;
      }
      proofs := proofs + {(b, server, h)};
      return true;
    }

    /** `serverComplete`: count the inventory, count the proofs, compare. */
    method ServerComplete(b: BatchId, server: Server) returns (complete: bool)
      ensures complete == M.ServerComplete(Tables(), b, server)
      ensures RepoInv(Tables()) ==>
        (complete <==> BlobsOf(Tables(), b) != {} && ProvenOn(Tables(), b, server) == BlobsOf(Tables(), b))
    {
      var total := |set p | p in blobs && p.0 == b :: p.1|;
      var proven := |set p | p in proofs && p.0 == b && p.1 == server :: p.2|;
      assert total == |BlobsOf(Tables(), b)| && proven == |ProvenOn(Tables(), b, server)|;
      complete := total > 0 && total == proven;
      if RepoInv(Tables()) { ServerCompleteMeaning(Tables(), b, server); }
    }

    method RecordCompleteServer(b: BatchId, server: Server) returns (ok: bool)
      modifies this`sagas, this`history
      ensures var after := M.RecordCompleteServer(old(Tables()), b, server);
        ok == after.Some? && Tables() == if ok then after.value else old(Tables())
      ensures old(Safe()) ==> Safe()
    {
      hide Inv;
      if Safe() {
        CompleteKeeps(needs, held, Tables(), b, server);
      }
      ok := ServerComplete(b, server);
      if ok {
        if sagas.Keys != {} && LeastId(sagas.Keys) == b {
          sagas := sagas[b := sagas[b].(complete := Coalesce(sagas[b].complete, server))];
        } else if b in history {
          history := history[b := history[b].(complete := Coalesce(history[b].complete, server))];
        }
      }
    }

    method RecordSigned(b: BatchId, event: Event) returns (ok: bool)
      modifies this`sagas
      ensures var after := M.RecordSigned(old(Tables()), b, event);
        ok == after.Some? && Tables() == if ok then after.value else old(Tables())
      ensures old(Safe()) ==> Safe()
    {
      hide Inv;
      if Safe() {
        SignedKeeps(needs, held, Tables(), b, event);
      }
      var saga := Active(Tables());
      if saga.None? || saga.value.complete.None? || event.expiration <= event.createdAt {
        return false;
      }
      if saga.value.signed.Some? && saga.value.signed.value != event {
        return false;
      }
      if b in sagas {
        sagas := sagas[b := sagas[b].(signed := Coalesce(sagas[b].signed, event))];
      }
      return true;
    }

    method RecordRelayAcknowledgement(b: BatchId, relay: string) returns (ok: bool)
      modifies this`sagas
      ensures var after := M.RecordAcknowledgement(old(Tables()), b, relay);
        ok == after.Some? && Tables() == if ok then after.value else old(Tables())
      ensures old(Safe()) ==> Safe()
    {
      hide Inv;
      if Safe() {
        AcknowledgedKeeps(needs, held, Tables(), b, relay);
      }
      var saga := Active(Tables());
      ok := saga.Some? && saga.value.signed.Some?;
      if ok && b in sagas {
        sagas := sagas[b := sagas[b].(acknowledged := Coalesce(sagas[b].acknowledged, relay))];
      }
    }

    method CommitPublication(b: BatchId) returns (ok: bool)
      modifies this`sagas
      ensures var after := M.CommitPublication(old(Tables()), b);
        ok == after.Some? && Tables() == if ok then after.value else old(Tables())
      ensures old(Safe()) ==> Safe()
    {
      hide Inv;
      if Safe() {
        CommittedKeeps(needs, held, Tables(), b);
      }
      var saga := Active(Tables());
      ok := saga.Some? && saga.value.acknowledged.Some?;
      if ok && b in sagas {
        sagas := sagas[b := sagas[b].(committed := true)];
      }
    }

    method MarkPublicationAdmitted(b: BatchId) returns (ok: bool)
      modifies this`sagas
      ensures var after := M.MarkAdmitted(old(Tables()), b);
        ok == after.Some? && Tables() == if ok then after.value else old(Tables())
      ensures old(Safe()) ==> Safe()
    {
      hide Inv;
      if Safe() {
        AdmittedKeeps(needs, held, Tables(), b);
      }
      var saga := Active(Tables());
      ok := saga.Some? && saga.value.committed;
      if ok && b in sagas {
        sagas := sagas[b := sagas[b].(admitted := true)];
      }
    }

    /** The deletions of `#pruneAdmitted`. */
    method PruneReleased(released: set<BatchId>)
      modifies this`blobs, this`proofs
      ensures Tables() == M.PruneReleased(old(Tables()), released)
      ensures old(Safe()) ==> Safe()
    {
      hide Inv;
      if Safe() {
        PruneKeeps(needs, held, Tables(), released);
      }
      DropRows(released * history.Keys);
    }

    /** Batch by batch. */
    method DropRows(gone: set<BatchId>)
      modifies this`blobs, this`proofs
      ensures proofs == set p | p in old(proofs) && p.0 !in gone
      ensures blobs == set p | p in old(blobs) && p.0 !in gone
    {
      var rest := gone;
      while rest != {}
        invariant rest <= gone
        invariant proofs == set p | p in old(proofs) && p.0 !in gone - rest
        invariant blobs == set p | p in old(blobs) && p.0 !in gone - rest
        decreases |rest|
      {
        var b :| b in rest;
        proofs := set p | p in proofs && p.0 != b;
        blobs := set p | p in blobs && p.0 != b;
        rest := rest - {b};
      }
    }
  }
}
