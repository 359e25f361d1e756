/** How publications follow one another over a whole run. */
module SagaTime {
  import opened Manifests
  import opened SagaModel
  import opened SagaInvariant
  import opened SagaRuns

  // ---- In every run ----

  /** The active saga is replaced only by one of the same or a later generation, and never
      while it is signed but not admitted. */
  ghost predicate Succeeds(r: Repo, t: Repo) {
    Active(r).Some? ==>
      && Active(t).Some?
      && Active(r).value.candidate.generation <= Active(t).value.candidate.generation
      && (Active(r).value.signed.Some? && !Active(r).value.admitted ==>
           ActiveId(t) == ActiveId(r) && Active(t).value.signed == Active(r).value.signed)
  }

  lemma UpdateSucceeds(r: Repo, b: BatchId, x: Saga)
    requires RepoInv(r) && b in r.sagas && Alike(r.sagas[b], x) && (r.sagas[b].signed.Some? ==> x.signed == r.sagas[b].signed)
    ensures Succeeds(r, r.(sagas := r.sagas[b := x]))
  {
    OneSaga(r, b);
    ActiveAfterUpdate(r, b, x);
    hide RepoInv;
  }

  lemma SameSucceeds(r: Repo, t: Repo)
    requires r.sagas == t.sagas
    ensures Succeeds(r, t)
  {
    ActiveSame(r, t);
  }

  lemma CreditSucceeds(r: Repo)
    requires RepoInv(r)
    ensures Succeeds(r, CreditPrior(r)) && CreditPrior(r).history == r.history && CreditPrior(r).sagas.Keys == r.sagas.Keys
    ensures CreditPrior(r).pending == r.pending && CreditPrior(r).pendingBlobs == r.pendingBlobs && CreditPrior(r).blobs == r.blobs
    ensures forall b :: b in r.sagas ==> Alike(r.sagas[b], CreditPrior(r).sagas[b]) && r.sagas[b].signed == CreditPrior(r).sagas[b].signed
    ensures |CreditPrior(r).sagas| <= 1
    ensures Active(r).Some? ==>
      Active(CreditPrior(r)).Some? && Active(CreditPrior(r)).value.admitted == Active(r).value.admitted
  {
    if CreditPrior(r) != r {
      var b := ActiveId(r).value;
      OneSaga(r, b);
      var x := CreditPrior(r).sagas[b];
      UpdateSucceeds(r, b, x);
      ActiveAfterUpdate(r, b, x);
    } else {
      SameSucceeds(r, r);
    }
  }

  lemma ArchiveEmpties(r: Repo)
    requires |r.sagas| <= 1
    ensures Archive(r).sagas == map[]
  {
    if r.sagas.Keys != {} {
      OneSaga(r, ActiveId(r).value);
    } else {
      assert r.sagas == map[];
    }
  }

  lemma InsertActive(r: Repo, candidate: Candidate, destinations: seq<Server>)
    requires r.sagas == map[]
    ensures var t := InsertSaga(r, candidate, destinations);
      && t.sagas == map[candidate.batchId := NewSaga(candidate, destinations)]
      && ActiveId(t) == Some(candidate.batchId) && Active(t) == Some(NewSaga(candidate, destinations))
  {
    var t := InsertSaga(r, candidate, destinations);
    assert t.sagas.Keys == {candidate.batchId};
  }

  lemma ClaimSucceeds(r: Repo, destinations: seq<Server>)
    requires RepoInv(r)
    ensures Succeeds(r, ClaimPublication(r, destinations).0)
  {
    CreditSucceeds(r);
    var c := CreditPrior(r);
    hide RepoInv, CreditPrior, InsertSaga, Archive, RowConflict;
    if Decide(c, destinations) == Replace {
      ArchiveEmpties(c);
      ArchivePending(c);
      if !RowConflict(Archive(c), c.pending.value) {
        InsertActive(Archive(c), c.pending.value, destinations);
        SameActiveRow(r, c);
      }
    }
  }

  lemma SameActiveRow(r: Repo, c: Repo)
    requires |r.sagas| <= 1 && r.sagas.Keys == c.sagas.Keys
    requires forall b :: b in r.sagas ==> Alike(r.sagas[b], c.sagas[b]) && r.sagas[b].signed == c.sagas[b].signed
    ensures ActiveId(r) == ActiveId(c)
    ensures Active(r).Some? ==> Active(c).Some? && Alike(Active(r).value, Active(c).value) && Active(r).value.signed == Active(c).value.signed
  {
    hide Alike;
    if r.sagas.Keys != {} { OneSaga(r, ActiveId(r).value); }
  }

  lemma RefreshSucceeds(r: Repo, now: int, lead: int)
    requires RepoInv(r)
    ensures Succeeds(r, BeginRefresh(r, now, lead).0)
  {
    hide Staged, Witnessed, Holder;
    if RefreshDue(r, now, lead) {
      var b := ActiveId(r).value;
      OneSaga(r, b);
      var t := BeginRefresh(r, now, lead).0;
      assert r.sagas - {b} == map[];
      assert t.sagas.Keys == {NextBatchId(r)};
    } else {
      SameSucceeds(r, r);
    }
  }

  /** The coordinator's own updates touch only the progress of the active saga. */
  lemma ProgressStep(needs: (Hash, Hash) -> bool, s: Sys, step: Step, t: Sys)
    requires SysInv(needs, s) && Take(needs, s, step) == Some(t)
    requires IsProgress(step)
    ensures t.repo == s.repo || (
      var b := s.pc.saga.candidate.batchId;
      && b in s.repo.sagas && b in t.repo.sagas && t.repo == s.repo.(sagas := s.repo.sagas[b := t.repo.sagas[b]])
      && Alike(s.repo.sagas[b], t.repo.sagas[b])
      && (s.repo.sagas[b].signed.Some? ==> t.repo.sagas[b].signed == s.repo.sagas[b].signed))
  {
    hide SafeInv, AllTruthful, ServerComplete, Witnessed, Holder, Staged;
    if Active(s.repo).Some? { ActiveRow(s.repo); }
  }

  lemma StepSucceeds(needs: (Hash, Hash) -> bool, s: Sys, step: Step, t: Sys)
    requires SysInv(needs, s) && Take(needs, s, step) == Some(t)
    ensures Succeeds(s.repo, t.repo)
  {
    hide Take, SysInv, Succeeds;
    if step.RefreshStep? {
      RefreshStepSucceeds(needs, s, step, t);
    } else if step.ClaimStep? {
      ClaimStepSucceeds(needs, s, step, t);
    } else if s.repo.sagas == t.repo.sagas {
      SameSucceeds(s.repo, t.repo);
    } else if IsProgress(step) {
      ProgressSucceeds(needs, s, step, t);
    } else {
      QuietEvents(needs, s, step, t);
    }
  }

  lemma RefreshStepSucceeds(needs: (Hash, Hash) -> bool, s: Sys, step: Step, t: Sys)
    requires SysInv(needs, s) && Take(needs, s, step) == Some(t) && step.RefreshStep?
    ensures Succeeds(s.repo, t.repo)
  {
    hide BeginRefresh, SafeInv, RepoInv, PcInv, AllTruthful, Succeeds;
    RefreshSucceeds(s.repo, step.now, step.lead);
  }

  lemma ClaimStepSucceeds(needs: (Hash, Hash) -> bool, s: Sys, step: Step, t: Sys)
    requires SysInv(needs, s) && Take(needs, s, step) == Some(t) && step.ClaimStep?
    ensures Succeeds(s.repo, t.repo)
  {
    hide ClaimPublication, SafeInv, RepoInv, PcInv, AllTruthful, Succeeds;
    ClaimSucceeds(s.repo, step.destinations);
  }

  lemma ProgressSucceeds(needs: (Hash, Hash) -> bool, s: Sys, step: Step, t: Sys)
    requires SysInv(needs, s) && Take(needs, s, step) == Some(t) && s.repo.sagas != t.repo.sagas
    requires IsProgress(step)
    ensures Succeeds(s.repo, t.repo)
  {
    ProgressStep(needs, s, step, t);
    InvRepo(needs, s.held, s.repo);
    hide Take, Inv, AllTruthful, PcInv, RepoInv, Succeeds, Alike;
    var b := s.pc.saga.candidate.batchId;
    UpdateSucceeds(s.repo, b, t.repo.sagas[b]);
  }

  /** Over any run the active generation never decreases, and a saga that is signed but not
      admitted is the active one in the next state too, with the same event. */
  lemma {:induction false} GenerationsGrow(needs: (Hash, Hash) -> bool, ss: seq<Sys>, i: nat, j: nat)
    requires Run(needs, ss) && i <= j < |ss|
    ensures Active(ss[i].repo).Some? ==>
      && Active(ss[j].repo).Some?
      && Active(ss[i].repo).value.candidate.generation <= Active(ss[j].repo).value.candidate.generation
    ensures i + 1 == j ==> Succeeds(ss[i].repo, ss[j].repo)
    decreases j
  {
    hide SysInv, Take, Active;
    if i < j {
      GenerationsGrow(needs, ss, i, j - 1);
      RunInvariant(needs, ss, j - 1);
      assert Steps(needs, ss[j - 1], ss[j - 1 + 1]);
      var step :| Take(needs, ss[j - 1], step) == Some(ss[j]);
      StepSucceeds(needs, ss[j - 1], step, ss[j]);
    }
  }

  // ---- Recorded events ----

  /** The event is recorded under this batch id, with the active saga or with an archived one. */
  ghost predicate RecordedAt(r: Repo, b: BatchId, e: Event) {
    (b in r.sagas && r.sagas[b].signed == Some(e)) || (b in r.history && r.history[b].signed == Some(e))
  }

  /** No recorded event is lost. */
  ghost predicate EventsKept(r: Repo, t: Repo) {
    forall b, e :: RecordedAt(r, b, e) ==> RecordedAt(t, b, e)
  }

  /** An archived event stands under the active saga's id, and it is not the saga's own: archiving
      the saga would replace it. */
  predicate Overwrites(r: Repo) {
    && Active(r).Some? && ActiveId(r).value in r.history
    && r.history[ActiveId(r).value].signed.Some? && r.history[ActiveId(r).value].signed != Active(r).value.signed
  }

  /** A row stands under the active saga's id that does not have its event: a refresh, which keeps
      the row that is there, would drop the event. */
  predicate Ignored(r: Repo) {
    && Active(r).Some? && ActiveId(r).value in r.history
    && Active(r).value.signed.Some? && r.history[ActiveId(r).value].signed != Active(r).value.signed
  }

  /** A claim that goes through and replaces the active saga. */
  predicate Replaces(r: Repo, destinations: seq<Server>) {
    Decide(CreditPrior(r), destinations) == Replace && ClaimPublication(r, destinations).1.Some?
  }

  lemma UpdateEvents(r: Repo, b: BatchId, x: Saga)
    requires b in r.sagas && (r.sagas[b].signed.Some? ==> x.signed == r.sagas[b].signed)
    ensures EventsKept(r, r.(sagas := r.sagas[b := x]))
  {
  }

  lemma SameEvents(r: Repo, t: Repo)
    requires r.sagas == t.sagas && r.history == t.history
    ensures EventsKept(r, t)
  {
  }

  /** A refresh that is due keeps all recorded events if and only if no other row stands under the
      active saga's id. */
  lemma RefreshKeepsEventsIff(r: Repo, now: int, lead: int)
    requires RepoInv(r) && RefreshDue(r, now, lead)
    ensures EventsKept(r, BeginRefresh(r, now, lead).0) <==> !Ignored(r)
  {
    hide Staged, Witnessed, Holder;
    var b, next, t := ActiveId(r).value, NextBatchId(r), BeginRefresh(r, now, lead).0;
    OneSaga(r, b);
    RefreshRows(r, now, lead, b);
    assert t.sagas.Keys == {next};
    if Ignored(r) {
      var e := Active(r).value.signed.value;
      assert RecordedAt(r, b, e) && !RecordedAt(t, b, e);
    }
  }

  lemma CreditEvents(r: Repo)
    requires RepoInv(r)
    ensures forall b, e :: RecordedAt(CreditPrior(r), b, e) <==> RecordedAt(r, b, e)
    ensures Overwrites(CreditPrior(r)) <==> Overwrites(r)
  {
    CreditSucceeds(r);
    SameActiveRow(r, CreditPrior(r));
    hide RepoInv, CreditPrior, Succeeds;
  }

  /** Archiving keeps all recorded events if and only if no other one is overwritten. */
  lemma ArchiveEvents(r: Repo)
    requires |r.sagas| <= 1
    ensures Archive(r).sagas == map[] && (EventsKept(r, Archive(r)) <==> !Overwrites(r))
  {
    ArchiveEmpties(r);
    if Active(r).Some? {
      var b := ActiveId(r).value;
      OneSaga(r, b);
      if Overwrites(r) {
        var e := r.history[b].signed.value;
        assert RecordedAt(r, b, e) && !RecordedAt(Archive(r), b, e);
      }
    }
  }

  /** A new saga stands beside whatever is archived under its id. */
  lemma InsertEvents(r: Repo, candidate: Candidate, destinations: seq<Server>)
    requires r.sagas == map[]
    ensures forall b, e :: RecordedAt(InsertSaga(r, candidate, destinations), b, e) <==> RecordedAt(r, b, e)
  {
    InsertActive(r, candidate, destinations);
  }

  /** A claim that replaces the active saga keeps all recorded events, whatever id it is given, if
      and only if no other event is archived under the id of the saga that it archives. */
  lemma ClaimKeepsEventsIff(r: Repo, destinations: seq<Server>)
    requires RepoInv(r) && Replaces(r, destinations)
    ensures EventsKept(r, ClaimPublication(r, destinations).0) <==> !Overwrites(r)
  {
    CreditSucceeds(r);
    CreditEvents(r);
    var c := CreditPrior(r);
    hide RepoInv, CreditPrior, InsertSaga, Archive, RowConflict, Succeeds, Overwrites, RecordedAt;
    ArchiveEvents(c);
    ArchivePending(c);
    InsertEvents(Archive(c), c.pending.value, destinations);
  }

  lemma ClaimEvents(r: Repo, destinations: seq<Server>)
    requires RepoInv(r)
    ensures EventsKept(r, ClaimPublication(r, destinations).0) <==> !(Replaces(r, destinations) && Overwrites(r))
  {
    if Replaces(r, destinations) {
      ClaimKeepsEventsIff(r, destinations);
    } else {
      CreditEvents(r);
      hide RepoInv, CreditPrior, InsertSaga, Archive, RowConflict, Overwrites, RecordedAt;
    }
  }

  // ---- Recorded events over runs ----

  ghost predicate IsProgress(step: Step) {
    step.CompleteStep? || step.SignStep? || step.AcknowledgeStep? || step.CommitStep? || step.AdmitStep?
  }

  /** The steps that touch neither the active saga nor the archive. */
  lemma QuietEvents(needs: (Hash, Hash) -> bool, s: Sys, step: Step, t: Sys)
    requires Take(needs, s, step) == Some(t)
    requires !IsProgress(step) && !step.RefreshStep? && !step.ClaimStep?
    ensures t.repo.sagas == s.repo.sagas && t.repo.history == s.repo.history && t.log == s.log
  {
    hide Template, ReadActive;
  }

  lemma ProgressEvents(needs: (Hash, Hash) -> bool, s: Sys, step: Step, t: Sys)
    requires SysInv(needs, s) && Take(needs, s, step) == Some(t)
    requires IsProgress(step)
    ensures EventsKept(s.repo, t.repo)
  {
    ProgressStep(needs, s, step, t);
    hide Take, SysInv;
    if t.repo == s.repo {
      SameEvents(s.repo, t.repo);
    } else {
      var b := s.pc.saga.candidate.batchId;
      UpdateEvents(s.repo, b, t.repo.sagas[b]);
    }
  }

  /** The steps that lose an event: a due refresh whose event another row keeps out of the archive,
      and a claim whose archiving overwrites another event. */
  predicate Loses(r: Repo, step: Step) {
    match step
    case RefreshStep(now, lead) => RefreshDue(r, now, lead) && Ignored(r)
    case ClaimStep(destinations) => Replaces(r, destinations) && Overwrites(r)
    case _ => false
  }

  /** They are all of them. */
  lemma StepKeepsEventsIff(needs: (Hash, Hash) -> bool, s: Sys, step: Step, t: Sys)
    requires SysInv(needs, s) && Take(needs, s, step) == Some(t)
    ensures EventsKept(s.repo, t.repo) <==> !Loses(s.repo, step)
    ensures !step.SignStep? ==> t.log == s.log
  {
    hide Take, SysInv, EventsKept, Overwrites, Ignored, Replaces;
    if step.RefreshStep? {
      RefreshStepEvents(needs, s, step, t);
    } else if step.ClaimStep? {
      ClaimStepEvents(needs, s, step, t);
    } else if IsProgress(step) {
      ProgressEvents(needs, s, step, t);
      if !step.SignStep? { ProgressLog(needs, s, step, t); }
    } else {
      QuietEvents(needs, s, step, t);
      SameEvents(s.repo, t.repo);
    }
  }

  lemma RefreshStepEvents(needs: (Hash, Hash) -> bool, s: Sys, step: Step, t: Sys)
    requires SysInv(needs, s) && Take(needs, s, step) == Some(t) && step.RefreshStep?
    ensures (EventsKept(s.repo, t.repo) <==> !Loses(s.repo, step)) && t.log == s.log
  {
    InvRepo(needs, s.held, s.repo);
    hide EventsKept, RepoInv, SafeInv, PcInv, AllTruthful, Ignored;
    if RefreshDue(s.repo, step.now, step.lead) {
      RefreshKeepsEventsIff(s.repo, step.now, step.lead);
    } else {
      SameEvents(s.repo, t.repo);
    }
  }

  lemma ClaimStepEvents(needs: (Hash, Hash) -> bool, s: Sys, step: Step, t: Sys)
    requires SysInv(needs, s) && Take(needs, s, step) == Some(t) && step.ClaimStep?
    ensures (EventsKept(s.repo, t.repo) <==> !Loses(s.repo, step)) && t.log == s.log
  {
    InvRepo(needs, s.held, s.repo);
    hide EventsKept, ClaimPublication, RepoInv, SafeInv, PcInv, AllTruthful, Overwrites, Replaces;
    ClaimEvents(s.repo, step.destinations);
  }

  lemma ProgressLog(needs: (Hash, Hash) -> bool, s: Sys, step: Step, t: Sys)
    requires Take(needs, s, step) == Some(t) && IsProgress(step) && !step.SignStep?
    ensures t.log == s.log
  {
    hide RecordCompleteServer, RecordAcknowledgement, CommitPublication, MarkAdmitted, ReadActive;
  }

  ghost predicate Logged(r: Repo, e: Event) {
    exists b :: RecordedAt(r, b, e)
  }

  /** Every event ever recorded still is, and each is dated after the ones before it. */
  ghost predicate TimeInv(s: Sys) {
    && (forall i, j :: 0 <= i < j < |s.log| ==> s.log[i].createdAt < s.log[j].createdAt)
    && (forall i :: 0 <= i < |s.log| ==> Logged(s.repo, s.log[i]))
  }

  lemma LoggedKept(r: Repo, t: Repo, e: Event)
    requires Logged(r, e) && EventsKept(r, t)
    ensures Logged(t, e)
  {
    hide RecordedAt;
    var b :| RecordedAt(r, b, e);
    assert RecordedAt(t, b, e);
  }

  lemma LogKept(s: Sys, t: Sys)
    requires TimeInv(s) && EventsKept(s.repo, t.repo) && t.log == s.log
    ensures TimeInv(t)
  {
    hide Logged, EventsKept;
    forall i | 0 <= i < |t.log| ensures Logged(t.repo, t.log[i]) {
      LoggedKept(s.repo, t.repo, s.log[i]);
    }
  }

  /** A new event is dated after every archived one, and while one is being signed all recorded
      events are archived. */
  lemma SignTime(needs: (Hash, Hash) -> bool, s: Sys, now: int, t: Sys)
    requires SysInv(needs, s) && TimeInv(s) && Take(needs, s, SignStep(now)) == Some(t)
    ensures TimeInv(t)
  {
    SignEvents(needs, s, now, t);
    if t.repo == s.repo {
      SameEvents(s.repo, t.repo);
      LogKept(s, t);
      return;
    }
    hide SafeInv, RepoInv, Take;
    var x, e := s.pc.saga, s.pc.template;
    var b := x.candidate.batchId;
    forall i | 0 <= i < |s.log| ensures s.log[i].createdAt < e.createdAt {
      assert Logged(s.repo, s.log[i]);
      var d :| RecordedAt(s.repo, d, s.log[i]);
      assert d in s.repo.history;
    }
    forall i | 0 <= i < |t.log| ensures Logged(t.repo, t.log[i]) {
      if i < |s.log| {
        LoggedKept(s.repo, t.repo, s.log[i]);
      } else {
        assert RecordedAt(t.repo, b, t.log[i]);
      }
    }
  }

  lemma SignEvents(needs: (Hash, Hash) -> bool, s: Sys, now: int, t: Sys)
    requires SysInv(needs, s) && Take(needs, s, SignStep(now)) == Some(t)
    ensures t.repo == s.repo ==> t.log == s.log
    ensures t.repo != s.repo ==>
      var x, e := s.pc.saga, s.pc.template; var b := x.candidate.batchId;
      && s.repo.sagas == map[b := x] && x.signed.None? && LaterThanHistory(s.repo, e) && EventsKept(s.repo, t.repo)
      && t.repo == s.repo.(sagas := s.repo.sagas[b := x.(signed := Some(e))]) && t.log == s.log + [e]
  {
    hide SafeInv, AllTruthful, Witnessed, Holder, Staged;
    var x, e := s.pc.saga, s.pc.template;
    var b := x.candidate.batchId;
    ActiveRow(s.repo);
    if t.repo != s.repo {
      ActiveAfterUpdate(s.repo, b, x.(signed := Some(e)));
      UpdateEvents(s.repo, b, x.(signed := Some(e)));
    }
  }

  lemma StepTime(needs: (Hash, Hash) -> bool, s: Sys, step: Step, t: Sys)
    requires SysInv(needs, s) && TimeInv(s) && Take(needs, s, step) == Some(t) && !Loses(s.repo, step)
    ensures TimeInv(t)
  {
    hide Take, SysInv, TimeInv, EventsKept, Loses;
    if step.SignStep? {
      SignTime(needs, s, step.now, t);
    } else {
      StepKeepsEventsIff(needs, s, step, t);
      LogKept(s, t);
    }
  }

  ghost predicate KeepingSteps(needs: (Hash, Hash) -> bool, s: Sys, t: Sys) {
    exists step :: Take(needs, s, step) == Some(t) && !Loses(s.repo, step)
  }

  /** A run none of whose steps loses an event. */
  ghost predicate KeepingRun(needs: (Hash, Hash) -> bool, ss: seq<Sys>) {
    ss != [] && ss[0] == INIT && forall i :: 0 <= i < |ss| - 1 ==> KeepingSteps(needs, ss[i], ss[i + 1])
  }

  lemma KeepingIsRun(needs: (Hash, Hash) -> bool, ss: seq<Sys>)
    requires KeepingRun(needs, ss)
    ensures Run(needs, ss)
  {
    hide Take, Loses;
    forall i | 0 <= i < |ss| - 1 ensures Steps(needs, ss[i], ss[i + 1]) {
      assert KeepingSteps(needs, ss[i], ss[i + 1]);
    }
  }

  lemma {:induction false} KeepingRunTime(needs: (Hash, Hash) -> bool, ss: seq<Sys>, i: nat)
    requires KeepingRun(needs, ss) && i < |ss|
    ensures TimeInv(ss[i])
    ensures i > 0 ==> EventsKept(ss[i - 1].repo, ss[i].repo)
  {
    hide SysInv, Take, TimeInv, EventsKept, Loses;
    if i == 0 {
      InitTime();
    } else {
      KeepingRunTime(needs, ss, i - 1);
      KeepingIsRun(needs, ss);
      RunInvariant(needs, ss, i - 1);
      assert KeepingSteps(needs, ss[i - 1], ss[i - 1 + 1]);
      var step :| Take(needs, ss[i - 1], step) == Some(ss[i]) && !Loses(ss[i - 1].repo, step);
      StepKeepsEventsIff(needs, ss[i - 1], step, ss[i]);
      StepTime(needs, ss[i - 1], step, ss[i]);
    }
  }

  lemma InitTime()
    ensures TimeInv(INIT)
  {
  }

  /** Over a whole run in which no event is lost the recorded events are dated strictly
      increasingly, however the clock moves and whatever ids are given twice. */
  lemma EventsIncrease(needs: (Hash, Hash) -> bool, ss: seq<Sys>, i: nat, a: nat, b: nat)
    requires KeepingRun(needs, ss) && i < |ss| && a < b < |ss[i].log|
    ensures ss[i].log[a].createdAt < ss[i].log[b].createdAt
  {
    hide KeepingRun;
    KeepingRunTime(needs, ss, i);
  }

  /** Once recorded under a batch id, an event stays recorded under it. */
  lemma {:induction false} EventNeverChanges(needs: (Hash, Hash) -> bool, ss: seq<Sys>, i: nat, j: nat, b: BatchId, e: Event)
    requires KeepingRun(needs, ss) && i <= j < |ss| && RecordedAt(ss[i].repo, b, e)
    ensures RecordedAt(ss[j].repo, b, e)
    decreases j
  {
    hide KeepingRun, TimeInv, RecordedAt;
    if i < j {
      EventNeverChanges(needs, ss, i, j - 1, b, e);
      KeepingRunTime(needs, ss, j);
    }
  }

  // ---- Where batch ids collide ----

  /** A claim that would replace the active saga fails, leaving the candidate pending, if and only
      if a blob of the candidate is already listed under its batch id. */
  lemma ClaimFailsIff(r: Repo, destinations: seq<Server>)
    requires RepoInv(r) && Decide(CreditPrior(r), destinations) == Replace
    ensures ClaimPublication(r, destinations).1.None? <==> exists h :: h in r.pendingBlobs && (r.pending.value.batchId, h) in r.blobs
    ensures ClaimPublication(r, destinations).1.None? ==> ClaimPublication(r, destinations).0.pending == r.pending
  {
    CreditSucceeds(r);
    var c := CreditPrior(r);
    hide RepoInv, CreditPrior, InsertSaga, Archive, Succeeds;
    ArchiveEmpties(c);
    ArchivePending(c);
  }

  /** The tables' own invariant is the machine's where no root needs anything. */
  lemma RepoAlone(r: Repo) returns (needs: (Hash, Hash) -> bool, held: Holdings)
    requires RepoInv(r)
    ensures Inv(needs, held, r) && forall root, h :: !needs(root, h)
  {
    hide RepoInv;
    needs := (root: Hash, h: Hash) => false;
    held := set p | p in r.proofs :: (p.1, p.2);
    forall b, server, h | (b, server, h) in r.proofs ensures (server, h) in held {
      var p := (b, server, h);
      assert p in r.proofs && (p.1, p.2) == (server, h);
    }
  }

  /** The active saga is unsigned, and the later batch that waits to supersede it has its id and
      shares a blob with it. */
  ghost predicate Stuck(r: Repo) {
    && Active(r).Some? && Active(r).value.signed.None? && r.pending.Some?
    && r.pending.value.batchId == ActiveId(r).value && r.pending.value.batchId !in r.history
    && r.pending.value.generation > Active(r).value.candidate.generation
    && exists h :: h in r.pendingBlobs && (r.pending.value.batchId, h) in r.blobs
  }

  /** Refreshing takes the next free id without telling the batch counter: a later batch that is
      given the same id and shares a blob with what is published cannot be claimed then. */
  lemma RefreshBlocksBatch(r: Repo, now: int, lead: int, candidate: Candidate, inventory: set<Hash>, h: Hash, destinations: seq<Server>)
    requires RepoInv(r) && RefreshDue(r, now, lead)
    requires candidate.batchId == NextBatchId(r) && candidate.generation > Active(r).value.candidate.generation
    requires h in inventory && (ActiveId(r).value, h) in r.blobs && destinations != []
    ensures var t := RecordPending(BeginRefresh(r, now, lead).0, candidate, inventory);
      RepoInv(t) && Stuck(t) && ClaimPublication(t, destinations).1.None?
  {
    var t := RecordPending(BeginRefresh(r, now, lead).0, candidate, inventory);
    RefreshedInv(r, now, lead, candidate, inventory);
    RefreshedTables(r, now, lead);
    CreditSucceeds(t);
    hide RepoInv, BeginRefresh, CreditPrior, NextBatchId;
    CreditedKeys(t, candidate.batchId);
    ClaimFailsIff(t, destinations);
  }

  /** Every run of the coordinator then ends at that claim, and so it stays, crashes and pruning
      included, until another candidate is recorded. */
  lemma StuckStep(needs: (Hash, Hash) -> bool, s: Sys, step: Step, t: Sys)
    requires SysInv(needs, s) && (s.pc.Idle? || s.pc.Refreshed?) && Stuck(s.repo)
    requires Take(needs, s, step) == Some(t) && !step.PendingStep?
    ensures (t.pc.Idle? || t.pc.Refreshed?) && Stuck(t.repo) && t.log == s.log
  {
    InvRepo(needs, s.held, s.repo);
    hide RepoInv, SafeInv, AllTruthful;
    if step.ClaimStep? {
      StuckClaim(s.repo, step.destinations);
    }
  }

  lemma StuckClaim(r: Repo, destinations: seq<Server>)
    requires RepoInv(r) && Stuck(r)
    ensures var (t, result) := ClaimPublication(r, destinations); Stuck(t) && (result.None? || result == Some(None))
  {
    CreditSucceeds(r);
    var c := CreditPrior(r);
    SameActiveRow(r, c);
    hide RepoInv, CreditPrior, InsertSaga, Archive, Succeeds;
    ArchivePending(c);
  }

  lemma {:induction false} StuckRun(needs: (Hash, Hash) -> bool, ss: seq<Sys>, steps: seq<Step>, i: nat)
    requires |ss| == |steps| + 1 && forall j :: 0 <= j < |steps| ==> Take(needs, ss[j], steps[j]) == Some(ss[j + 1]) && !steps[j].PendingStep?
    requires SysInv(needs, ss[0]) && (ss[0].pc.Idle? || ss[0].pc.Refreshed?) && Stuck(ss[0].repo) && i < |ss|
    ensures SysInv(needs, ss[i]) && (ss[i].pc.Idle? || ss[i].pc.Refreshed?) && Stuck(ss[i].repo) && ss[i].log == ss[0].log
  {
    hide SysInv, Stuck, Take;
    if i > 0 {
      StuckRun(needs, ss, steps, i - 1);
      assert Take(needs, ss[i - 1], steps[i - 1]) == Some(ss[i - 1 + 1]);
      StuckStep(needs, ss[i - 1], steps[i - 1], ss[i]);
      StepKeeps(needs, ss[i - 1], steps[i - 1], ss[i]);
    }
  }

  /** Where the saga whose id was given twice is admitted already, its next refresh moves its rows
      out of the way, and the claim goes through. */
  lemma RefreshUnblocks(r: Repo, now: int, lead: int, destinations: seq<Server>)
    requires RepoInv(r) && RefreshDue(r, now, lead) && r.pending.Some? && destinations != []
    requires r.pending.value.batchId == ActiveId(r).value && r.pending.value.generation > Active(r).value.candidate.generation
    ensures ClaimPublication(BeginRefresh(r, now, lead).0, destinations).1 == Some(Some(NewSaga(r.pending.value, destinations)))
  {
    var t, next := BeginRefresh(r, now, lead).0, NextBatchId(r);
    RefreshedAlone(r, now, lead);
    RefreshedTables(r, now, lead);
    hide RepoInv, BeginRefresh, CreditPrior, NextBatchId, Archive, InsertSaga;
    CreditSucceeds(t);
    CreditedKeys(t, next);
    ClaimFailsIff(t, destinations);
    ArchiveEmpties(CreditPrior(t));
    InsertActive(Archive(CreditPrior(t)), r.pending.value, destinations);
  }

  lemma RefreshedAlone(r: Repo, now: int, lead: int)
    requires RepoInv(r) && RefreshDue(r, now, lead)
    ensures var t := BeginRefresh(r, now, lead).0;
      && RepoInv(t) && t.pending == r.pending && forall h :: (ActiveId(r).value, h) !in t.blobs
  {
    var needs, held := RepoAlone(r);
    RefreshKeeps(needs, held, r, now, lead);
    RefreshRows(r, now, lead, ActiveId(r).value);
    hide RepoInv, NextBatchId, MoveBlobs, MoveProofs, SafeInv;
  }

  lemma CreditedKeys(t: Repo, b: BatchId)
    requires t.sagas.Keys == {b}
    ensures CreditPrior(t).sagas.Keys == {b} && CreditPrior(t).sagas[b].candidate == t.sagas[b].candidate && CreditPrior(t).pending == t.pending
    ensures CreditPrior(t).sagas[b].signed == t.sagas[b].signed
    ensures Active(CreditPrior(t)) == Some(CreditPrior(t).sagas[b])
  {
    assert LeastId(t.sagas.Keys) == b;
  }

  /** A refresh leaves one unsigned saga under the next id, with the inventory. */
  lemma RefreshedTables(r: Repo, now: int, lead: int)
    requires RepoInv(r) && RefreshDue(r, now, lead)
    ensures var u, next := BeginRefresh(r, now, lead).0, NextBatchId(r);
      && u.sagas.Keys == {next} && u.sagas[next].signed == None && next !in u.history
      && u.sagas[next].candidate.generation == Active(r).value.candidate.generation
      && forall h :: (ActiveId(r).value, h) in r.blobs ==> (next, h) in u.blobs
  {
    hide Witnessed, Staged, Holder, NextBatchId;
    RefreshRows(r, now, lead, ActiveId(r).value);
    OneSaga(r, ActiveId(r).value);
    assert r.sagas - {ActiveId(r).value} == map[];
    forall h | (ActiveId(r).value, h) in r.blobs ensures (NextBatchId(r), h) in BeginRefresh(r, now, lead).0.blobs {
      var p := (ActiveId(r).value, h);
      assert p in r.blobs;
    }
  }

  lemma RefreshedInv(r: Repo, now: int, lead: int, candidate: Candidate, inventory: set<Hash>)
    requires RepoInv(r) && inventory != {}
    ensures RepoInv(RecordPending(BeginRefresh(r, now, lead).0, candidate, inventory))
  {
    hide RepoInv, BeginRefresh;
    var needs, held := RepoAlone(r);
    RefreshKeeps(needs, held, r, now, lead);
    PendingKeeps(needs, held, BeginRefresh(r, now, lead).0, candidate, inventory);
  }
}
