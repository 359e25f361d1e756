/** The publication coordinator as a machine of steps, one repository call per step.

    Between any two steps the process may crash, other parts of the daemon may record a new
    pending candidate or prune released sagas, and servers may turn out to hold blobs.
 */
module SagaRuns {
  import opened Manifests
  import opened SagaModel
  import opened SagaInvariant

  /** Where `#run` stands, with the saga it last read. */
  datatype Pc =
    | Idle
    | Refreshed
    | Claimed(saga: Saga)
    | Settled(saga: Saga)
    | Signing(saga: Saga, template: Event)
    | Signed(saga: Saga)
    | Acknowledged(saga: Saga)
    | Committed(saga: Saga)

  /** `held` collects what servers were ever proven to hold; `log` the events ever recorded. */
  datatype Sys = Sys(repo: Repo, pc: Pc, held: Holdings, log: seq<Event>)

  const INIT: Sys := Sys(EMPTY_REPO, Idle, {}, [])

  datatype Step =
    | PendingStep(candidate: Candidate, inventory: set<Hash>)
    | HeldStep(server: Server, hash: Hash)
    | RefreshStep(now: int, lead: int)
    | ClaimStep(destinations: seq<Server>)
    | ProofStep(server: Server, hash: Hash)
    | CompleteStep(server: Server)
    | SettleStep
    | TemplateStep(now: int, lifetime: int)
    | SignStep(now: int)
    | AcknowledgeStep(relay: string)
    | CommitStep
    | AdmitStep
    | PruneStep(released: set<BatchId>)
    | CrashStep

  function MaxCreated(history: map<BatchId, Saga>, ids: set<BatchId>, now: int): (m: int)
    requires ids <= history.Keys
    ensures m >= now && forall b :: b in ids && history[b].signed.Some? ==> history[b].signed.value.createdAt < m
    decreases |ids|
  {
    if ids == {} then now
    else
      var b := LeastId(ids);
      var rest := MaxCreated(history, ids - {b}, now);
      if history[b].signed.Some? && history[b].signed.value.createdAt + 1 > rest
      then history[b].signed.value.createdAt + 1 else rest
  }

  /** The template of the root event: the saga's root and destinations, dated after every
      archived event. */
  function Template(s: Repo, saga: Saga, now: int, lifetime: int): Event {
    Event(MaxCreated(s.history, s.history.Keys, now), saga.candidate.root, saga.destinations, now + lifetime)
  }

  function ReadActive(s: Repo, k: Saga -> Pc): Pc {
    match Active(s)
    case None => Idle
    case Some(x) => k(x)
  }

  /** One step; `None` where it is not enabled.  A repository call that throws aborts the run. */
  ghost function Take(needs: (Hash, Hash) -> bool, s: Sys, step: Step): Option<Sys> {
    var r := s.repo;
    match step
    case PendingStep(candidate, inventory) =>
      // what the writer hands over: an inventory that covers everything the root needs
      if inventory == {} || !(forall h: Hash :: needs(candidate.root, h) ==> h in inventory) then None
      else Some(s.(repo := RecordPending(r, candidate, inventory)))
    case HeldStep(server, hash) => Some(s.(held := s.held + {(server, hash)}))
    case RefreshStep(now, lead) =>
      if !s.pc.Idle? then None else Some(s.(repo := BeginRefresh(r, now, lead).0, pc := Refreshed))
    case ClaimStep(destinations) =>
      if !s.pc.Refreshed? then None
      else
        var (after, result) := ClaimPublication(r, destinations);
        Some(s.(repo := after, pc := if result.Some? && result.value.Some? then Claimed(result.value.value) else Idle))
    case ProofStep(server, hash) =>
      // `prove` answered true for this server and blob
      if !s.pc.Claimed? || (server, hash) !in s.held then None
      else
        (match RecordBlobProof(r, s.pc.saga.candidate.batchId, server, hash)
         case None => Some(s)
         case Some(after) => Some(s.(repo := after)))
    case CompleteStep(server) =>
      if !s.pc.Claimed? then None
      else
        (match RecordCompleteServer(r, s.pc.saga.candidate.batchId, server)
         case None => Some(s)
         case Some(after) => Some(s.(repo := after)))
    case SettleStep =>
      if !s.pc.Claimed? then None
      else Some(s.(pc := ReadActive(r, (x: Saga) => if x.complete.None? then Idle else Settled(x))))
    case TemplateStep(now, lifetime) =>
      if !s.pc.Settled? then None
      else if s.pc.saga.signed.Some? then Some(s.(pc := Signed(s.pc.saga)))
      else Some(s.(pc := Signing(s.pc.saga, Template(r, s.pc.saga, now, lifetime))))
    case SignStep(now) =>
      // by now the signer has answered; an event that has expired meanwhile is rejected
      if !s.pc.Signing? then None
      else if s.pc.template.expiration <= now then Some(s.(pc := Idle))
      else
        (match RecordSigned(r, s.pc.saga.candidate.batchId, s.pc.template)
         case None => Some(s.(pc := Idle))
         case Some(after) =>
           Some(s.(repo := after, pc := ReadActive(after, (x: Saga) => Signed(x)), log := s.log + [s.pc.template])))
    case AcknowledgeStep(relay) =>
      if !s.pc.Signed? then None
      else if s.pc.saga.acknowledged.Some? then Some(s.(pc := Acknowledged(s.pc.saga)))
      else if ActiveId(r) != Some(s.pc.saga.candidate.batchId) then Some(s.(pc := Idle))
      else
        (match RecordAcknowledgement(r, s.pc.saga.candidate.batchId, relay)
         case None => Some(s.(pc := Idle))
         case Some(after) => Some(s.(repo := after, pc := ReadActive(after, (x: Saga) => Acknowledged(x)))))
    case CommitStep =>
      if !s.pc.Acknowledged? then None
      else if s.pc.saga.committed then Some(s.(pc := Committed(s.pc.saga)))
      else
        (match CommitPublication(r, s.pc.saga.candidate.batchId)
         case None => Some(s.(pc := Idle))
         case Some(after) => Some(s.(repo := after, pc := ReadActive(after, (x: Saga) => Committed(x)))))
    case AdmitStep =>
      if !s.pc.Committed? then None
      else if s.pc.saga.admitted then Some(s.(pc := Idle))
      else
        (match MarkAdmitted(r, s.pc.saga.candidate.batchId)
         case None => Some(s.(pc := Idle))
         case Some(after) => Some(s.(repo := after, pc := Idle)))
    case PruneStep(released) => Some(s.(repo := PruneReleased(r, released)))
    case CrashStep => Some(s.(pc := Idle))
  }

  // ---- The invariant of the whole machine ----

  /** A recorded event announces the saga's own root and destinations. */
  ghost predicate Truthful(x: Saga) {
    x.signed.Some? ==> x.signed.value.root == x.candidate.root && x.signed.value.servers == x.destinations
  }

  ghost predicate AllTruthful(r: Repo) {
    (forall b :: b in r.sagas ==> Truthful(r.sagas[b])) && (forall b :: b in r.history ==> Truthful(r.history[b]))
  }

  /** What the coordinator holds agrees with the tables: nobody else replaces the active saga. */
  ghost predicate PcInv(s: Sys) {
    match s.pc
    case Idle => true
    case Refreshed => true
    case Claimed(x) => ActiveId(s.repo) == Some(x.candidate.batchId)
    case Settled(x) => Active(s.repo) == Some(x) && x.complete.Some?
    case Signing(x, template) =>
      && Active(s.repo) == Some(x) && x.complete.Some? && x.signed.None?
      && template.root == x.candidate.root && template.servers == x.destinations
      && LaterThanHistory(s.repo, template)
    case Signed(x) => Active(s.repo) == Some(x)
    case Acknowledged(x) => Active(s.repo) == Some(x)
    case Committed(x) => Active(s.repo) == Some(x)
  }

  ghost predicate LaterThanHistory(r: Repo, e: Event) {
    forall b :: b in r.history && r.history[b].signed.Some? ==> r.history[b].signed.value.createdAt < e.createdAt
  }

  ghost predicate SysInv(needs: (Hash, Hash) -> bool, s: Sys) {
    Inv(needs, s.held, s.repo) && AllTruthful(s.repo) && PcInv(s)
  }

  // ---- Reading the active row ----

  lemma ActiveRow(r: Repo)
    requires RepoInv(r) && Active(r).Some?
    ensures var b := ActiveId(r).value;
      r.sagas.Keys == {b} && r.sagas[b] == Active(r).value && Active(r).value.candidate.batchId == b
  {
    hide Staged, Witnessed, Holder;
    OneSaga(r, ActiveId(r).value);
  }

  lemma ActiveAfterUpdate(r: Repo, b: BatchId, x: Saga)
    requires RepoInv(r) && b in r.sagas
    ensures var t := r.(sagas := r.sagas[b := x]); ActiveId(t) == Some(b) && Active(t) == Some(x)
  {
    hide Staged, Witnessed, Holder;
    OneSaga(r, b);
    var t := r.(sagas := r.sagas[b := x]);
    assert t.sagas.Keys == {b};
  }

  lemma ActiveSame(r: Repo, t: Repo)
    requires r.sagas == t.sagas
    ensures ActiveId(r) == ActiveId(t) && Active(r) == Active(t)
  {
  }

  // ---- Each kind of step keeps the invariant ----

  lemma QuietStep(needs: (Hash, Hash) -> bool, s: Sys, t: Sys)
    requires SysInv(needs, s) && Inv(needs, t.held, t.repo)
    requires t.repo.sagas == s.repo.sagas && t.repo.history == s.repo.history && t.pc == s.pc
    ensures SysInv(needs, t)
  {
    hide Inv;
    ActiveSame(s.repo, t.repo);
  }

  lemma RefreshStepKeeps(needs: (Hash, Hash) -> bool, s: Sys, now: int, lead: int)
    requires SysInv(needs, s)
    ensures SysInv(needs, s.(repo := BeginRefresh(s.repo, now, lead).0, pc := Refreshed))
  {
    RefreshKeeps(needs, s.held, s.repo, now, lead);
    RefreshTruthful(s.repo, now, lead);
    hide Inv, BeginRefresh, AllTruthful;
  }

  lemma RefreshTruthful(r: Repo, now: int, lead: int)
    requires AllTruthful(r)
    ensures AllTruthful(BeginRefresh(r, now, lead).0)
  {
  }

  lemma ClaimTruthful(r: Repo, destinations: seq<Server>)
    requires AllTruthful(r)
    ensures AllTruthful(ClaimPublication(r, destinations).0)
  {
    var c := CreditPrior(r);
    assert AllTruthful(c);
    assert AllTruthful(Archive(c));
  }

  lemma ClaimActive(needs: (Hash, Hash) -> bool, held: Holdings, r: Repo, destinations: seq<Server>)
    requires Inv(needs, held, r)
    ensures var (after, result) := ClaimPublication(r, destinations);
      result.Some? && result.value.Some? ==> Active(after) == result.value && ActiveId(after) == Some(result.value.value.candidate.batchId)
  {
    ClaimKeeps(needs, held, r, destinations);
    var (after, result) := ClaimPublication(r, destinations);
    hide Inv, SafeInv, CreditPrior, Archive, InsertSaga, RowConflict, Decide;
    if result.Some? && result.value.Some? {
      assert Active(after) == result.value;
      InvRepo(needs, held, after);
      ActiveRow(after);
    }
  }

  lemma InvRepo(needs: (Hash, Hash) -> bool, held: Holdings, r: Repo)
    requires Inv(needs, held, r)
    ensures RepoInv(r)
  {
  }

  lemma ClaimStepKeeps(needs: (Hash, Hash) -> bool, s: Sys, destinations: seq<Server>, t: Sys)
    requires SysInv(needs, s) && Take(needs, s, ClaimStep(destinations)) == Some(t)
    ensures SysInv(needs, t)
  {
    hide Inv, AllTruthful, ClaimPublication;
    ClaimKeeps(needs, s.held, s.repo, destinations);
    ClaimTruthful(s.repo, destinations);
    ClaimActive(needs, s.held, s.repo, destinations);
  }

  lemma ProofStepKeeps(needs: (Hash, Hash) -> bool, s: Sys, server: Server, hash: Hash, t: Sys)
    requires SysInv(needs, s) && Take(needs, s, ProofStep(server, hash)) == Some(t)
    ensures SysInv(needs, t)
  {
    ProofKeeps(needs, s.held, s.repo, s.pc.saga.candidate.batchId, server, hash);
    hide Inv, AllTruthful;
    ActiveSame(s.repo, t.repo);
    TruthfulSame(s.repo, t.repo);
  }

  lemma TruthfulSame(r: Repo, t: Repo)
    requires AllTruthful(r) && r.sagas == t.sagas && r.history == t.history
    ensures AllTruthful(t)
  {
  }

  lemma TruthfulUpdate(r: Repo, b: BatchId, x: Saga)
    requires AllTruthful(r) && Truthful(x)
    ensures AllTruthful(r.(sagas := r.sagas[b := x])) && AllTruthful(r.(history := r.history[b := x]))
  {
  }

  lemma CompleteStepKeeps(needs: (Hash, Hash) -> bool, s: Sys, server: Server, t: Sys)
    requires SysInv(needs, s) && Take(needs, s, CompleteStep(server)) == Some(t)
    ensures SysInv(needs, t)
  {
    hide Inv, ServerComplete;
    var b := s.pc.saga.candidate.batchId;
    CompleteKeeps(needs, s.held, s.repo, b, server);
    InvRepo(needs, s.held, s.repo);
    if t != s {
      ActiveRow(s.repo);
      ActiveAfterUpdate(s.repo, b, t.repo.sagas[b]);
    }
  }

  lemma SignStepKeeps(needs: (Hash, Hash) -> bool, s: Sys, now: int, t: Sys)
    requires SysInv(needs, s) && Take(needs, s, SignStep(now)) == Some(t)
    ensures SysInv(needs, t)
  {
    hide Inv;
    var x, template := s.pc.saga, s.pc.template;
    var b := x.candidate.batchId;
    SignedKeeps(needs, s.held, s.repo, b, template);
    InvRepo(needs, s.held, s.repo);
    ActiveRow(s.repo);
    ActiveAfterUpdate(s.repo, b, x.(signed := Some(template)));
    TruthfulUpdate(s.repo, b, x.(signed := Some(template)));
  }

  lemma AcknowledgeStepKeeps(needs: (Hash, Hash) -> bool, s: Sys, relay: string, t: Sys)
    requires SysInv(needs, s) && Take(needs, s, AcknowledgeStep(relay)) == Some(t)
    ensures SysInv(needs, t)
  {
    hide Inv;
    var x := s.pc.saga;
    var b := x.candidate.batchId;
    AcknowledgedKeeps(needs, s.held, s.repo, b, relay);
    InvRepo(needs, s.held, s.repo);
    ActiveRow(s.repo);
    ActiveAfterUpdate(s.repo, b, x.(acknowledged := Some(relay)));
    TruthfulUpdate(s.repo, b, x.(acknowledged := Some(relay)));
  }

  lemma CommitStepKeeps(needs: (Hash, Hash) -> bool, s: Sys, t: Sys)
    requires SysInv(needs, s) && Take(needs, s, CommitStep) == Some(t)
    ensures SysInv(needs, t)
  {
    hide Inv;
    var x := s.pc.saga;
    var b := x.candidate.batchId;
    CommittedKeeps(needs, s.held, s.repo, b);
    InvRepo(needs, s.held, s.repo);
    ActiveRow(s.repo);
    ActiveAfterUpdate(s.repo, b, x.(committed := true));
    TruthfulUpdate(s.repo, b, x.(committed := true));
  }

  lemma AdmitStepKeeps(needs: (Hash, Hash) -> bool, s: Sys, t: Sys)
    requires SysInv(needs, s) && Take(needs, s, AdmitStep) == Some(t)
    ensures SysInv(needs, t)
  {
    hide Inv;
    var x := s.pc.saga;
    var b := x.candidate.batchId;
    AdmittedKeeps(needs, s.held, s.repo, b);
    InvRepo(needs, s.held, s.repo);
    ActiveRow(s.repo);
    TruthfulUpdate(s.repo, b, x.(admitted := true));
  }

  lemma StepKeeps(needs: (Hash, Hash) -> bool, s: Sys, step: Step, t: Sys)
    requires SysInv(needs, s) && Take(needs, s, step) == Some(t)
    ensures SysInv(needs, t)
  {
    hide Inv, AllTruthful, BeginRefresh, ClaimPublication, RecordBlobProof, RecordCompleteServer, RecordSigned,
         RecordAcknowledgement, CommitPublication, MarkAdmitted;
    match step
    case PendingStep(candidate, inventory) =>
      PendingKeeps(needs, s.held, s.repo, candidate, inventory);
      QuietStep(needs, s, t);
    case HeldStep(server, hash) =>
      HeldMore(needs, s.held, t.held, s.repo);
      QuietStep(needs, s, t);
    case RefreshStep(now, lead) => RefreshStepKeeps(needs, s, now, lead);
    case ClaimStep(destinations) => ClaimStepKeeps(needs, s, destinations, t);
    case ProofStep(server, hash) => ProofStepKeeps(needs, s, server, hash, t);
    case CompleteStep(server) => CompleteStepKeeps(needs, s, server, t);
    case SettleStep =>
    case TemplateStep(now, lifetime) =>
    case SignStep(now) => SignStepKeeps(needs, s, now, t);
    case AcknowledgeStep(relay) => AcknowledgeStepKeeps(needs, s, relay, t);
    case CommitStep => CommitStepKeeps(needs, s, t);
    case AdmitStep => AdmitStepKeeps(needs, s, t);
    case PruneStep(released) =>
      PruneKeeps(needs, s.held, s.repo, released);
      QuietStep(needs, s, t);
    case CrashStep =>
  }

  // ---- Runs ----

  ghost predicate Steps(needs: (Hash, Hash) -> bool, s: Sys, t: Sys) {
    exists step :: Take(needs, s, step) == Some(t)
  }

  /** A run from the empty database, crashes included. */
  ghost predicate Run(needs: (Hash, Hash) -> bool, ss: seq<Sys>) {
    ss != [] && ss[0] == INIT && forall i :: 0 <= i < |ss| - 1 ==> Steps(needs, ss[i], ss[i + 1])
  }

  lemma {:induction false} RunInvariant(needs: (Hash, Hash) -> bool, ss: seq<Sys>, i: nat)
    requires Run(needs, ss) && i < |ss|
    ensures SysInv(needs, ss[i])
  {
    hide SysInv, Take;
    if i == 0 {
      InitSys(needs);
    } else {
      RunInvariant(needs, ss, i - 1);
      assert Steps(needs, ss[i - 1], ss[i - 1 + 1]);
      var step :| Take(needs, ss[i - 1], step) == Some(ss[i]);
      StepKeeps(needs, ss[i - 1], step, ss[i]);
    }
  }

  lemma InitSys(needs: (Hash, Hash) -> bool)
    ensures SysInv(needs, INIT)
  {
    InitInv(needs, {});
  }

  /** The stages of every saga, in every state of every run: at most one is active; admitted
      implies committed implies acknowledged implies signed implies a complete server, which is one
      of the destinations. */
  lemma SagaStages(needs: (Hash, Hash) -> bool, ss: seq<Sys>, i: nat)
    requires Run(needs, ss) && i < |ss|
    ensures |ss[i].repo.sagas| <= 1
    ensures forall b :: b in ss[i].repo.sagas ==> Staged(ss[i].repo.sagas[b])
    ensures forall b :: b in ss[i].repo.history ==> Staged(ss[i].repo.history[b])
  {
    hide Run, Staged;
    RunInvariant(needs, ss, i);
  }

  /** Publication safety: in every state of every run, whatever crashed in between, each recorded
      event announces a root of which some server in its blossom tags was proven to hold every
      blob the root needs. */
  lemma PublicationSafety(needs: (Hash, Hash) -> bool, ss: seq<Sys>, i: nat, b: BatchId, x: Saga)
    requires Run(needs, ss) && i < |ss|
    requires (b in ss[i].repo.sagas && x == ss[i].repo.sagas[b]) || (b in ss[i].repo.history && x == ss[i].repo.history[b])
    requires x.signed.Some?
    ensures exists server :: server in x.signed.value.servers && HoldsAll(needs, ss[i].held, server, x.signed.value.root)
  {
    hide Run, Witnessed, Covers, HoldsAll, PcInv;
    RunInvariant(needs, ss, i);
    assert Staged(x) && Truthful(x) && Complete(needs, ss[i].held, x);
    assert x.complete.value in x.signed.value.servers;
  }
}
