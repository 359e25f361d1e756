/** What a claim and a refresh do, row by row. */
module SagaClaims {
  import opened Manifests
  import opened SagaModel
  import opened SagaInvariant
  import opened SagaRuns
  import opened SagaTime

  /** An archived publication of this root that some server of `destinations` already holds. */
  ghost predicate DoneEarlier(r: Repo, b: BatchId, root: Hash, destinations: seq<Server>) {
    && b in r.history && r.history[b].committed && r.history[b].admitted && r.history[b].candidate.root == root
    && exists i :: 0 <= i < |destinations| && r.history[b].complete == Some(destinations[i])
  }

  ghost predicate LatestDone(r: Repo, b: BatchId, root: Hash, destinations: seq<Server>) {
    DoneEarlier(r, b, root, destinations) && forall d: BatchId :: DoneEarlier(r, d, root, destinations) ==> d <= b
  }

  /** The saga with the credit it is due: neither complete nor signed, it takes over the complete
      server of the latest publication of its root that one of its own servers already holds. */
  ghost predicate Credited(r: Repo, x: Saga, y: Saga) {
    if x.complete.None? && x.signed.None? && exists b: BatchId :: DoneEarlier(r, b, x.candidate.root, x.destinations)
    then exists b: BatchId :: LatestDone(r, b, x.candidate.root, x.destinations) && y == x.(complete := r.history[b].complete)
    else y == x
  }

  lemma DoneIsPrior(r: Repo, b: BatchId, root: Hash, destinations: seq<Server>)
    ensures DoneEarlier(r, b, root, destinations) <==> b in PriorIds(r.history, root, destinations)
  {
    if b in PriorIds(r.history, root, destinations) {
      var i :| 0 <= i < |destinations| && destinations[i] == r.history[b].complete.value;
    }
  }

  lemma CreditMeaning(r: Repo)
    requires |r.sagas| <= 1 && Active(r).Some?
    ensures var id, x, c := ActiveId(r).value, Active(r).value, CreditPrior(r);
      && c.sagas.Keys == r.sagas.Keys == {id} && Credited(r, x, c.sagas[id]) && c == r.(sagas := c.sagas) && Active(c) == Some(c.sagas[id])
      && ActiveId(c) == Some(id)
  {
    var id, x := ActiveId(r).value, Active(r).value;
    OneSaga(r, id);
    var c := CreditPrior(r);
    forall b: BatchId ensures DoneEarlier(r, b, x.candidate.root, x.destinations) <==> b in PriorIds(r.history, x.candidate.root, x.destinations) {
      DoneIsPrior(r, b, x.candidate.root, x.destinations);
    }
    var ids := PriorIds(r.history, x.candidate.root, x.destinations);
    hide DoneEarlier, PriorIds;
    if x.complete.None? && x.signed.None? && ids != {} {
      assert LatestDone(r, GreatestId(ids), x.candidate.root, x.destinations);
    }
    assert c.sagas.Keys == {id};
    assert LeastId(c.sagas.Keys) == id;
  }

  /** The pending candidate may take the active saga's place: it is newer, and the saga is admitted or
      unsigned. */
  ghost predicate Supersedes(r: Repo, x: Saga) {
    r.pending.Some? && r.pending.value.generation > x.candidate.generation && (x.admitted || x.signed.None?)
  }

  ghost predicate RowsTaken(r: Repo) {
    r.pending.Some? && exists h :: h in r.pendingBlobs && (r.pending.value.batchId, h) in r.blobs
  }

  /** The tables after a claim that goes through: one new saga, unproven, for all of the pending
      inventory; `history` has what was archived. */
  ghost predicate Claimed(r: Repo, t: Repo, destinations: seq<Server>, history: map<BatchId, Saga>)
    requires r.pending.Some?
  {
    var b := r.pending.value.batchId;
    && t.sagas == map[b := Saga(r.pending.value, destinations, None, None, None, false, false)]
    && t.history == history && t.pending.None? && t.pendingBlobs == {} && t.proofs == r.proofs
    && forall d, h :: (d, h) in t.blobs <==> (d, h) in r.blobs || (d == b && h in r.pendingBlobs)
  }

  /** `claimPublication` while a saga is active: it is credited in any case; it is the answer unless
      the pending candidate supersedes it, which needs destinations and unused rows. */
  lemma ClaimMeaning(r: Repo, destinations: seq<Server>)
    requires RepoInv(r) && Active(r).Some?
    ensures var id, x := ActiveId(r).value, Active(r).value; var (t, result) := ClaimPublication(r, destinations);
      if Supersedes(r, x) && destinations != [] && !RowsTaken(r) then
        && id in t.history && Credited(r, x, t.history[id]) && Claimed(r, t, destinations, r.history[id := t.history[id]])
        && result == Some(Some(Saga(r.pending.value, destinations, None, None, None, false, false)))
      else
        && t.sagas.Keys == {id} && Credited(r, x, t.sagas[id]) && t == r.(sagas := t.sagas)
        && result == if !Supersedes(r, x) then Some(Some(t.sagas[id])) else if destinations == [] then Some(None) else None
  {
    CreditMeaning(r);
    var c := CreditPrior(r);
    var id := ActiveId(r).value;
    CreditSucceeds(r);
    SameActiveRow(r, c);
    hide RepoInv, CreditPrior, Credited, Succeeds, InsertSaga, Archive;
    if Decide(c, destinations) == Replace {
      ClaimFailsIff(r, destinations);
      ArchiveEmpties(c);
      ArchivePending(c);
      ArchivedHistory(c, id);
      InsertActive(Archive(c), c.pending.value, destinations);
      Inserted(Archive(c), c.pending.value, destinations);
    }
  }

  lemma ArchivedHistory(c: Repo, id: BatchId)
    requires |c.sagas| <= 1 && ActiveId(c) == Some(id)
    ensures Archive(c).history == c.history[id := c.sagas[id]] && id in Archive(c).history
  {
  }

  lemma Inserted(a: Repo, candidate: Candidate, destinations: seq<Server>)
    ensures var t := InsertSaga(a, candidate, destinations);
      && t.history == a.history && t.pending.None? && t.pendingBlobs == {} && t.proofs == a.proofs
      && forall d, h :: (d, h) in t.blobs <==> (d, h) in a.blobs || (d == candidate.batchId && h in a.pendingBlobs)
  {
    var t := InsertSaga(a, candidate, destinations);
    forall d, h ensures (d, h) in t.blobs <==> (d, h) in a.blobs || (d == candidate.batchId && h in a.pendingBlobs) {
    }
  }

  /** ... and with no saga active. */
  lemma FirstClaimMeaning(r: Repo, destinations: seq<Server>)
    requires RepoInv(r) && Active(r).None?
    ensures var (t, result) := ClaimPublication(r, destinations);
      if r.pending.Some? && destinations != [] && !RowsTaken(r) then
        Claimed(r, t, destinations, r.history) && result == Some(Some(Saga(r.pending.value, destinations, None, None, None, false, false)))
      else t == r && result == if r.pending.None? || destinations == [] then Some(None) else None
  {
    assert r.sagas == map[];
    hide RepoInv, InsertSaga;
    if r.pending.Some? && destinations != [] {
      InsertActive(r, r.pending.value, destinations);
      Inserted(r, r.pending.value, destinations);
    }
  }

  /** `beginPublicationRefresh`: an admitted publication within the lead of its expiration starts over,
      unsigned, under an id above all others, with its inventory, proofs and complete server; the old
      row goes to the archive unless its place is taken. */
  lemma RefreshMeaning(r: Repo, now: int, lead: int)
    requires RepoInv(r)
    ensures var (t, began) := BeginRefresh(r, now, lead);
      && (began <==> Active(r).Some? && Active(r).value.committed && Active(r).value.admitted && Active(r).value.signed.Some?
                     && Active(r).value.signed.value.expiration - now <= lead)
      && (!began ==> t == r)
      && (began ==>
           var id, x := ActiveId(r).value, Active(r).value;
           exists next: BatchId ::
             && (forall b :: b in r.sagas || b in r.history ==> b < next)
             && t.sagas == map[next := Saga(Candidate(next, x.candidate.generation, x.candidate.root), x.destinations, x.complete, None, None, false, false)]
             && t.history == (if id in r.history then r.history else r.history[id := x])
             && t.pending == r.pending && t.pendingBlobs == r.pendingBlobs
             && (forall b: BatchId, h: Hash :: (b, h) in t.blobs <==> if b == next then (id, h) in r.blobs else b != id && (b, h) in r.blobs)
             && (forall b: BatchId, s: Server, h: Hash :: (b, s, h) in t.proofs <==> if b == next then (id, s, h) in r.proofs else b != id && (b, s, h) in r.proofs))
  {
    if RefreshDue(r, now, lead) {
      var id, x, next := ActiveId(r).value, Active(r).value, NextBatchId(r);
      var t := BeginRefresh(r, now, lead).0;
      NextIsAbove(r);
      OneSaga(r, id);
      assert r.sagas - {id} == map[];
      forall b: BatchId, h: Hash ensures (b, h) in t.blobs <==> if b == next then (id, h) in r.blobs else b != id && (b, h) in r.blobs {
        RefreshRows(r, now, lead, b);
      }
      forall b: BatchId, s: Server, h: Hash
        ensures (b, s, h) in t.proofs <==> if b == next then (id, s, h) in r.proofs else b != id && (b, s, h) in r.proofs
      {
        RefreshRows(r, now, lead, b);
      }
      hide RepoInv, NextBatchId, MoveBlobs, MoveProofs;
      assert t.sagas == map[next := Saga(Candidate(next, x.candidate.generation, x.candidate.root), x.destinations, x.complete, None, None, false, false)];
    }
  }

  lemma NextIsAbove(r: Repo)
    ensures forall b :: b in r.sagas || b in r.history ==> b < NextBatchId(r)
  {
    forall b | b in r.sagas || b in r.history ensures b < NextBatchId(r) {
      assert b in r.sagas.Keys + r.history.Keys;
    }
  }

  // ---- The calls that record progress ----

  /** Which saga a batch id names: the active one, or else the archived one. */
  ghost predicate Named(r: Repo, b: BatchId, x: Saga) {
    if b in r.sagas then x == r.sagas[b] else b in r.history && x == r.history[b]
  }

  lemma ByBatchNames(r: Repo, b: BatchId)
    requires |r.sagas| <= 1
    ensures ByBatch(r, b).Some? <==> b in r.sagas || b in r.history
    ensures ByBatch(r, b).Some? ==> Named(r, b, ByBatch(r, b).value)
    ensures b in r.sagas ==> ActiveId(r) == Some(b)
  {
    if b in r.sagas { OneSaga(r, b); }
  }

  /** `recordBlobProof`: one proof more, for a listed blob and a destination of the saga. */
  lemma ProofMeaning(r: Repo, b: BatchId, server: Server, h: Hash)
    requires RepoInv(r)
    ensures var t := RecordBlobProof(r, b, server, h);
      && (t.Some? <==> (b, h) in r.blobs && exists x :: Named(r, b, x) && server in x.destinations)
      && (t.Some? ==> t.value == r.(proofs := t.value.proofs)
                      && forall d, s, g :: (d, s, g) in t.value.proofs <==> (d, s, g) in r.proofs || (d == b && s == server && g == h))
  {
    hide RepoInv;
    ByBatchNames(r, b) by { assert |r.sagas| <= 1 by { SmallRepo(r); } }
  }

  lemma SmallRepo(r: Repo)
    requires RepoInv(r)
    ensures |r.sagas| <= 1
  {
  }

  /** `recordCompleteServer`: only for a server that is proven to hold a non-empty inventory; the saga
      of that id keeps the server it has, or takes this one. */
  lemma CompleteMeaning(r: Repo, b: BatchId, server: Server)
    requires RepoInv(r)
    ensures var t := RecordCompleteServer(r, b, server);
      && (t.Some? <==> (exists h :: (b, h) in r.blobs) && forall h :: (b, h) in r.blobs ==> (b, server, h) in r.proofs)
      && (t.Some? && b in r.sagas ==>
           t.value == r.(sagas := map[b := r.sagas[b].(complete := Some(if r.sagas[b].complete.Some? then r.sagas[b].complete.value else server))]))
      && (t.Some? && b !in r.sagas && b in r.history ==>
           t.value == r.(history := r.history[b := r.history[b].(complete := Some(if r.history[b].complete.Some? then r.history[b].complete.value else server))]))
  {
    ServerCompleteMeaning(r, b, server);
    SmallRepo(r);
    ProvenIs(r, b, server);
    hide RepoInv, ServerComplete, BlobsOf, ProvenOn;
    if b in r.sagas {
      OneSaga(r, b);
      assert r.sagas[b := r.sagas[b].(complete := Coalesce(r.sagas[b].complete, server))]
          == map[b := r.sagas[b].(complete := Coalesce(r.sagas[b].complete, server))];
    }
  }

  lemma ProvenIs(r: Repo, b: BatchId, server: Server)
    requires RepoInv(r)
    ensures BlobsOf(r, b) != {} <==> exists h :: (b, h) in r.blobs
    ensures ProvenOn(r, b, server) == BlobsOf(r, b) <==> forall h :: (b, h) in r.blobs ==> (b, server, h) in r.proofs
  {
    hide Staged, Witnessed, Holder;
    forall h ensures h in BlobsOf(r, b) <==> (b, h) in r.blobs {
      if (b, h) in r.blobs { assert (b, h).1 in BlobsOf(r, b); }
    }
    forall h ensures h in ProvenOn(r, b, server) <==> (b, server, h) in r.proofs {
      if (b, server, h) in r.proofs { assert (b, server, h).2 in ProvenOn(r, b, server); }
    }
    if BlobsOf(r, b) != {} {
      var h :| h in BlobsOf(r, b);
      assert (b, h) in r.blobs;
    }
  }

  /** The four calls that move the active saga on: each needs the stage before, and keeps what was
      recorded first. */
  lemma ProgressMeaning(r: Repo, b: BatchId, event: Event, relay: string)
    requires RepoInv(r) && b in r.sagas
    ensures var x := r.sagas[b];
      && RecordSigned(r, b, event)
         == (if x.complete.Some? && event.expiration > event.createdAt && (x.signed.None? || x.signed == Some(event))
             then Some(r.(sagas := map[b := x.(signed := Some(event))])) else None)
      && RecordAcknowledgement(r, b, relay)
         == (if x.signed.None? then None
             else Some(r.(sagas := map[b := if x.acknowledged.Some? then x else x.(acknowledged := Some(relay))])))
      && CommitPublication(r, b) == (if x.acknowledged.None? then None else Some(r.(sagas := map[b := x.(committed := true)])))
      && MarkAdmitted(r, b) == (if !x.committed then None else Some(r.(sagas := map[b := x.(admitted := true)])))
  {
    SmallRepo(r);
    OneSaga(r, b);
    assert forall y: Saga :: r.sagas[b := y] == map[b := y];
  }
}
