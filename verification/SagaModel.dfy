/** The publication tables and what each repository call does to them.

    Every table is a map or a set, every transaction one function.  A call that throws leaves the
    tables as they were and yields `None`.
 */
module SagaModel {
  import opened Manifests

  type Server = string
  type BatchId = nat

  datatype Candidate = Candidate(batchId: BatchId, generation: nat, root: Hash)

  /** A signed publication: its timestamp, the announced root, its blossom tags and expiration. */
  datatype Event = Event(createdAt: int, root: Hash, servers: seq<Server>, expiration: int)

  datatype Saga = Saga(candidate: Candidate, destinations: seq<Server>, complete: Option<Server>,
                       signed: Option<Event>, acknowledged: Option<string>, committed: bool, admitted: bool)

  datatype Repo = Repo(
    pending: Option<Candidate>,
    pendingBlobs: set<Hash>,
    sagas: map<BatchId, Saga>,
    history: map<BatchId, Saga>,
    blobs: set<(BatchId, Hash)>,
    proofs: set<(BatchId, Server, Hash)>)

  const EMPTY_REPO: Repo := Repo(None, {}, map[], map[], {}, {})

  // ---- Queries ----

  /** `ORDER BY batch_id LIMIT 1` */
  function LeastId(ids: set<BatchId>): (b: BatchId)
    requires ids != {}
    ensures b in ids && forall x :: x in ids ==> b <= x
  {
    LeastIdExists(ids);
    var b :| b in ids && forall x :: x in ids ==> b <= x;
    b
  }

  lemma LeastIdExists(ids: set<BatchId>)
    requires ids != {}
    ensures exists b :: b in ids && forall x :: x in ids ==> b <= x
  {
    var b := FindLeast(ids);
  }

  lemma {:induction false} FindLeast(ids: set<BatchId>) returns (b: BatchId)
    requires ids != {}
    ensures b in ids && forall x :: x in ids ==> b <= x
  {
    b :| b in ids;
    var others := ids - {b};
    assert forall x :: x in ids ==> x == b || x in others;
    if others != {} {
      var rest := FindLeast(others);
      if rest < b { b := rest; }
    }
  }

  function GreatestId(ids: set<BatchId>): (b: BatchId)
    requires ids != {}
    ensures b in ids && forall x :: x in ids ==> x <= b
  {
    GreatestIdExists(ids);
    var b :| b in ids && forall x :: x in ids ==> x <= b;
    b
  }

  lemma GreatestIdExists(ids: set<BatchId>)
    requires ids != {}
    ensures exists b :: b in ids && forall x :: x in ids ==> x <= b
  {
    var b := FindGreatest(ids);
  }

  lemma {:induction false} FindGreatest(ids: set<BatchId>) returns (b: BatchId)
    requires ids != {}
    ensures b in ids && forall x :: x in ids ==> x <= b
  {
    b :| b in ids;
    var others := ids - {b};
    assert forall x :: x in ids ==> x == b || x in others;
    if others != {} {
      var rest := FindGreatest(others);
      if rest > b { b := rest; }
    }
  }

  /** The key of the saga `publicationSaga` returns. */
  function ActiveId(s: Repo): Option<BatchId> {
    if s.sagas.Keys == {} then None else Some(LeastId(s.sagas.Keys))
  }

  function Active(s: Repo): Option<Saga> {
    if s.sagas.Keys == {} then None else Some(s.sagas[LeastId(s.sagas.Keys)])
  }

  /** `publicationSagaByBatch` */
  function ByBatch(s: Repo, b: BatchId): Option<Saga> {
    if ActiveId(s) == Some(b) then Active(s)
    else if b in s.history then Some(s.history[b])
    else None
  }

  function BlobsOf(s: Repo, b: BatchId): set<Hash> {
    set p | p in s.blobs && p.0 == b :: p.1
  }

  function ProvenOn(s: Repo, b: BatchId, server: Server): set<Hash> {
    set p | p in s.proofs && p.0 == b && p.1 == server :: p.2
  }

  /** `serverComplete` compares two counts. */
  predicate ServerComplete(s: Repo, b: BatchId, server: Server) {
    |BlobsOf(s, b)| > 0 && |BlobsOf(s, b)| == |ProvenOn(s, b, server)|
  }

  // ---- Transactions ----

  function RecordPending(s: Repo, candidate: Candidate, inventory: set<Hash>): Repo {
    s.(pending := Some(candidate), pendingBlobs := inventory)
  }

  /** An archived saga that already proved the same root on one of the current destinations. */
  predicate IsPrior(item: Saga, root: Hash, destinations: seq<Server>) {
    item.committed && item.admitted && item.complete.Some? && item.candidate.root == root
    && item.complete.value in destinations
  }

  function PriorIds(history: map<BatchId, Saga>, root: Hash, destinations: seq<Server>): set<BatchId> {
    set b | b in history && IsPrior(history[b], root, destinations)
  }

  /** The first part of `claimPublication`: credit the active saga with the complete server of
      the latest archived saga of the same root. */
  function CreditPrior(s: Repo): Repo {
    match Active(s)
    case None => s
    case Some(current) =>
      if current.complete.Some? || current.signed.Some? then s
      else
        var ids := PriorIds(s.history, current.candidate.root, current.destinations);
        if ids == {} then s
        else s.(sagas := s.sagas[ActiveId(s).value := current.(complete := s.history[GreatestId(ids)].complete)])
  }

  /** What the claim decides, once prior work is credited. */
  datatype Decision = Keep | Nothing | Replace

  function Decide(s: Repo, destinations: seq<Server>): Decision {
    match Active(s)
    case Some(current) =>
      if s.pending.None? || s.pending.value.generation <= current.candidate.generation then Keep
      else if !current.admitted && current.signed.Some? then Keep
      else if destinations == [] then Nothing
      else Replace
    case None => if s.pending.None? || destinations == [] then Nothing else Replace
  }

  /** Archive the active saga, if any. */
  function Archive(s: Repo): Repo {
    match Active(s)
    case None => s
    case Some(current) =>
      s.(history := s.history[ActiveId(s).value := current], sagas := s.sagas - {ActiveId(s).value})
  }

  /** Rows of the pending candidate that already exist under its batch id. */
  predicate RowConflict(s: Repo, candidate: Candidate) {
    candidate.batchId in s.sagas || exists h :: h in s.pendingBlobs && (candidate.batchId, h) in s.blobs
  }

  function NewSaga(candidate: Candidate, destinations: seq<Server>): Saga {
    Saga(candidate, destinations, None, None, None, false, false)
  }

  function InsertSaga(s: Repo, candidate: Candidate, destinations: seq<Server>): Repo {
    s.(sagas := s.sagas[candidate.batchId := NewSaga(candidate, destinations)],
       blobs := s.blobs + (set h | h in s.pendingBlobs :: (candidate.batchId, h)),
       pending := None, pendingBlobs := {})
  }

  /** `claimPublication`.  The crediting is a transaction of its own; the replacement is one
      transaction that fails as a whole on a primary-key conflict. */
  function ClaimPublication(s: Repo, destinations: seq<Server>): (r: (Repo, Option<Option<Saga>>)) {
    var c := CreditPrior(s);
    match Decide(c, destinations)
    case Keep => (c, Some(Active(c)))
    case Nothing => (c, Some(None))
    case Replace =>
      var candidate := c.pending.value;
      var a := Archive(c);
      if RowConflict(a, candidate) then (c, None)
      else
        var n := InsertSaga(a, candidate, destinations);
        (n, Some(Active(n)))
  }

  /** Whether the active publication is due for a refresh. */
  predicate RefreshDue(s: Repo, now: int, lead: int) {
    var saga := Active(s);
    && saga.Some? && saga.value.committed && saga.value.admitted && saga.value.signed.Some?
    && saga.value.signed.value.expiration <= now + lead
  }

  function NextBatchId(s: Repo): BatchId {
    var ids := s.sagas.Keys + s.history.Keys;
    if ids == {} then 1 else GreatestId(ids) + 1
  }

  function MoveBlobs(rows: set<(BatchId, Hash)>, b: BatchId, next: BatchId): set<(BatchId, Hash)> {
    (set p | p in rows && p.0 != b) + (set p | p in rows && p.0 == b :: (next, p.1))
  }

  function MoveProofs(rows: set<(BatchId, Server, Hash)>, b: BatchId, next: BatchId): set<(BatchId, Server, Hash)> {
    (set p | p in rows && p.0 != b) + (set p | p in rows && p.0 == b :: (next, p.1, p.2))
  }

  /** `beginPublicationRefresh`: start over with a new batch id, keeping root, destinations,
      inventory, proofs and the complete server. */
  function BeginRefresh(s: Repo, now: int, lead: int): (r: (Repo, bool)) {
    if !RefreshDue(s, now, lead) then (s, false)
    else
      var b, saga, next := ActiveId(s).value, Active(s).value, NextBatchId(s);
      var renewed := Saga(saga.candidate.(batchId := next), saga.destinations, saga.complete, None, None, false, false);
      (s.(history := if b in s.history then s.history else s.history[b := saga],
          sagas := (s.sagas - {b})[next := renewed],
          blobs := MoveBlobs(s.blobs, b, next),
          proofs := MoveProofs(s.proofs, b, next)),
       true)
  }

  function RecordBlobProof(s: Repo, b: BatchId, server: Server, h: Hash): Option<Repo> {
    var saga := ByBatch(s, b);
    if saga.None? || server !in saga.value.destinations || (b, h) !in s.blobs then None
    else Some(s.(proofs := s.proofs + {(b, server, h)}))
  }

  function Coalesce<T>(a: Option<T>, b: T): Option<T> {
    if a.Some? then a else Some(b)
  }

  function RecordCompleteServer(s: Repo, b: BatchId, server: Server): Option<Repo> {
    if !ServerComplete(s, b, server) then None
    else if ActiveId(s) == Some(b) then
      Some(s.(sagas := s.sagas[b := s.sagas[b].(complete := Coalesce(s.sagas[b].complete, server))]))
    else if b in s.history then
      Some(s.(history := s.history[b := s.history[b].(complete := Coalesce(s.history[b].complete, server))]))
    else Some(s)
  }

  /** `recordSigned`, for an event that was verified to be the template's.  One that had expired
      when it was created is refused. */
  function RecordSigned(s: Repo, b: BatchId, event: Event): Option<Repo> {
    var saga := Active(s);
    if saga.None? || saga.value.complete.None? || event.expiration <= event.createdAt then None
    else if saga.value.signed.Some? && saga.value.signed.value != event then None
    else if b in s.sagas then Some(s.(sagas := s.sagas[b := s.sagas[b].(signed := Coalesce(s.sagas[b].signed, event))]))
    else Some(s)
  }

  function RecordAcknowledgement(s: Repo, b: BatchId, relay: string): Option<Repo> {
    if Active(s).None? || Active(s).value.signed.None? then None
    else if b in s.sagas then
      Some(s.(sagas := s.sagas[b := s.sagas[b].(acknowledged := Coalesce(s.sagas[b].acknowledged, relay))]))
    else Some(s)
  }

  function CommitPublication(s: Repo, b: BatchId): Option<Repo> {
    if Active(s).None? || Active(s).value.acknowledged.None? then None
    else if b in s.sagas then Some(s.(sagas := s.sagas[b := s.sagas[b].(committed := true)]))
    else Some(s)
  }

  function MarkAdmitted(s: Repo, b: BatchId): Option<Repo> {
    if Active(s).None? || !Active(s).value.committed then None
    else if b in s.sagas then Some(s.(sagas := s.sagas[b := s.sagas[b].(admitted := true)]))
    else Some(s)
  }

  /** `#pruneAdmitted`, as far as sagas are concerned: the proofs and inventories of archived
      sagas without open endpoint work are dropped. */
  function PruneReleased(s: Repo, released: set<BatchId>): Repo {
    var gone := released * s.history.Keys;
    s.(blobs := (set p | p in s.blobs && p.0 !in gone), proofs := (set p | p in s.proofs && p.0 !in gone))
  }

  // ---- What every call keeps ----

  /** The stages of one saga, in order. */
  predicate Staged(x: Saga) {
    && (x.admitted ==> x.committed)
    && (x.committed ==> x.acknowledged.Some?)
    && (x.acknowledged.Some? ==> x.signed.Some?)
    && (x.signed.Some? ==> x.complete.Some?)
    && (x.complete.Some? ==> x.complete.value in x.destinations)
  }

  /** The saga a batch id's inventory and proofs belong to. */
  ghost predicate Holder(s: Repo, b: BatchId, x: Saga) {
    if b in s.sagas then x == s.sagas[b] else b in s.history && x == s.history[b]
  }

  /** Some blob of the batch was proven only by servers among the holder's destinations. */
  ghost predicate Witnessed(s: Repo, b: BatchId, x: Saga) {
    exists h :: (b, h) in s.blobs && forall server :: (b, server, h) in s.proofs ==> server in x.destinations
  }

  ghost predicate RepoInv(s: Repo) {
    && |s.sagas| <= 1
    && (forall b :: b in s.sagas ==> Staged(s.sagas[b]) && s.sagas[b].candidate.batchId == b)
    && (forall b :: b in s.history ==> Staged(s.history[b]))
    && (forall b, server, h :: (b, server, h) in s.proofs ==> (b, h) in s.blobs)
    && (forall b, h :: (b, h) in s.blobs ==> b in s.sagas || b in s.history)
    && (forall b, h, x :: (b, h) in s.blobs && Holder(s, b, x) ==> Witnessed(s, b, x))
    && (s.pending.Some? ==> s.pendingBlobs != {})
  }

  lemma OneSaga(s: Repo, b: BatchId)
    requires |s.sagas| <= 1 && b in s.sagas
    ensures s.sagas.Keys == {b} && ActiveId(s) == Some(b) && Active(s) == Some(s.sagas[b])
  {
    assert |s.sagas.Keys| <= 1;
    forall x | x in s.sagas.Keys ensures x == b {
      if x != b {
        assert {x, b} <= s.sagas.Keys;
        SubsetCount({x, b}, s.sagas.Keys);
      }
    }
  }

  lemma {:induction false} SubsetCount<T>(a: set<T>, b: set<T>)
    requires a <= b
    ensures |a| <= |b|
    ensures |a| == |b| ==> a == b
    decreases |a|
  {
    if a != {} {
      var x :| x in a;
      SubsetCount(a - {x}, b - {x});
      if |a| == |b| { assert a == (a - {x}) + {x} && b == (b - {x}) + {x}; }
    }
  }

  /** Comparing counts is comparing sets, because proofs are only recorded for blobs of the
      inventory: a server is complete exactly when it is proven to hold the whole, non-empty
      inventory. */
  lemma ServerCompleteMeaning(s: Repo, b: BatchId, server: Server)
    requires RepoInv(s)
    ensures ServerComplete(s, b, server) <==> BlobsOf(s, b) != {} && ProvenOn(s, b, server) == BlobsOf(s, b)
  {
    hide Staged, Witnessed, Holder;
    assert ProvenOn(s, b, server) <= BlobsOf(s, b) by {
      forall h | h in ProvenOn(s, b, server) ensures h in BlobsOf(s, b) {
        assert (b, server, h) in s.proofs;
        assert (b, h) in s.blobs;
      }
    }
    SubsetCount(ProvenOn(s, b, server), BlobsOf(s, b));
  }
}
