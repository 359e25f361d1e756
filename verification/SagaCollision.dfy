/** Runs in which a batch is given the id a refresh has taken, and an event is lost for it. */
module SagaCollision {
  import opened Manifests
  import opened SagaModel
  import opened SagaInvariant
  import opened SagaRuns
  import opened SagaTime

  const LEAD: int := 10
  const LIFETIME: int := 100

  /** A step that reads the clock reads `now`. */
  predicate At(step: Step, now: int) {
    match step
    case RefreshStep(time, lead) => time == now && lead == LEAD
    case TemplateStep(time, lifetime) => time == now && lifetime == LIFETIME
    case SignStep(time) => time == now
    case _ => true
  }

  /** A run in which the clock never goes back. */
  ghost predicate Timed(needs: (Hash, Hash) -> bool, ss: seq<Sys>, steps: seq<Step>, clock: seq<int>) {
    && |ss| == |clock| == |steps| + 1 && ss[0] == INIT
    && forall i :: 0 <= i < |steps| ==>
         Take(needs, ss[i], steps[i]) == Some(ss[i + 1]) && clock[i] <= clock[i + 1] && At(steps[i], clock[i + 1])
  }

  ghost predicate Reached(needs: (Hash, Hash) -> bool, s: Sys, now: int) {
    exists ss, steps, clock :: Timed(needs, ss, steps, clock) && ss[|steps|] == s && clock[|steps|] == now
  }

  lemma ReachedStart(needs: (Hash, Hash) -> bool)
    ensures Reached(needs, INIT, 0)
  {
    var ss, steps, clock := [INIT], [], [0];
    assert Timed(needs, ss, steps, clock);
  }

  lemma ReachedStep(needs: (Hash, Hash) -> bool, s: Sys, now: int, step: Step, later: int, t: Sys)
    requires Reached(needs, s, now) && now <= later && At(step, later) && Take(needs, s, step) == Some(t)
    ensures Reached(needs, t, later)
  {
    hide Take;
    var ss, steps, clock :| Timed(needs, ss, steps, clock) && ss[|steps|] == s && clock[|steps|] == now;
    var ss', steps', clock' := ss + [t], steps + [step], clock + [later];
    forall i | 0 <= i < |steps'|
      ensures Take(needs, ss'[i], steps'[i]) == Some(ss'[i + 1]) && clock'[i] <= clock'[i + 1] && At(steps'[i], clock'[i + 1])
    {
      if i < |steps| {
        assert Take(needs, ss[i], steps[i]) == Some(ss[i + 1]);
      }
    }
    assert Timed(needs, ss', steps', clock');
  }

  /** Every root needs itself alone. */
  function Itself(): (Hash, Hash) -> bool {
    (root: Hash, h: Hash) => root == h
  }

  const SERVERS: seq<Server> := ["s"]
  const FIRST: Candidate := Candidate(1, 1, 10)
  /** The first batch's root under the id its refresh takes. */
  const AGAIN: Candidate := Candidate(2, 1, 10)
  const SECOND: Candidate := Candidate(2, 2, 20)
  const THIRD: Candidate := Candidate(3, 3, 30)
  const HELD: Holdings := {("s", 10), ("s", 20), ("s", 30)}

  const EVENT_1: Event := Event(0, 10, SERVERS, 100)
  const EVENT_2: Event := Event(90, 10, SERVERS, 190)

  /** A saga all of whose blobs are on the one server. */
  function Proven(candidate: Candidate): Saga {
    NewSaga(candidate, SERVERS).(complete := Some("s"))
  }

  function Published(candidate: Candidate, event: Event): Saga {
    Saga(candidate, SERVERS, Some("s"), Some(event), Some("r"), true, true)
  }

  datatype Rows = Rows(history: map<BatchId, Saga>, blobs: set<(BatchId, Hash)>, proofs: set<(BatchId, Server, Hash)>)

  /** One active saga, nothing pending. */
  function One(x: Saga, rows: Rows): Repo {
    Repo(None, {}, map[x.candidate.batchId := x], rows.history, rows.blobs, rows.proofs)
  }

  lemma ActiveOne(r: Repo, b: BatchId)
    requires r.sagas.Keys == {b}
    ensures ActiveId(r) == Some(b) && Active(r) == Some(r.sagas[b])
  {
  }

  // ---- Publishing one saga ----

  lemma SettleAndTemplate(x: Saga, rows: Rows, log: seq<Event>, event: Event, read: Saga, now: int)
    requires x.complete.Some? && x.signed.None? && x.destinations == SERVERS
    requires event == Event(MaxCreated(rows.history, rows.history.Keys, now), x.candidate.root, SERVERS, now + LIFETIME)
    ensures Take(Itself(), Sys(One(x, rows), Claimed(read), HELD, log), SettleStep) == Some(Sys(One(x, rows), Settled(x), HELD, log))
    ensures Take(Itself(), Sys(One(x, rows), Settled(x), HELD, log), TemplateStep(now, LIFETIME)) == Some(Sys(One(x, rows), Signing(x, event), HELD, log))
  {
    hide MaxCreated;
    ActiveOne(One(x, rows), x.candidate.batchId);
  }

  lemma SignAndAcknowledge(x: Saga, rows: Rows, log: seq<Event>, event: Event, now: int)
    requires x.complete.Some? && x.signed.None? && x.acknowledged.None? && event.expiration > now && event.expiration > event.createdAt
    ensures var y := x.(signed := Some(event)); var z := y.(acknowledged := Some("r"));
      && Take(Itself(), Sys(One(x, rows), Signing(x, event), HELD, log), SignStep(now)) == Some(Sys(One(y, rows), Signed(y), HELD, log + [event]))
      && Take(Itself(), Sys(One(y, rows), Signed(y), HELD, log + [event]), AcknowledgeStep("r")) == Some(Sys(One(z, rows), Acknowledged(z), HELD, log + [event]))
  {
    var b := x.candidate.batchId;
    var y := x.(signed := Some(event));
    var z := y.(acknowledged := Some("r"));
    ActiveOne(One(x, rows), b);
    ActiveOne(One(y, rows), b);
    ActiveOne(One(z, rows), b);
    assert map[b := x][b := y] == map[b := y] && map[b := y][b := z] == map[b := z];
  }

  lemma CommitAndAdmit(x: Saga, rows: Rows, log: seq<Event>)
    requires x.acknowledged.Some? && !x.committed && !x.admitted
    ensures var y := x.(committed := true); var z := y.(admitted := true);
      && Take(Itself(), Sys(One(x, rows), Acknowledged(x), HELD, log), CommitStep) == Some(Sys(One(y, rows), Committed(y), HELD, log))
      && Take(Itself(), Sys(One(y, rows), Committed(y), HELD, log), AdmitStep) == Some(Sys(One(z, rows), Idle, HELD, log))
  {
    var b := x.candidate.batchId;
    var y := x.(committed := true);
    var z := y.(admitted := true);
    ActiveOne(One(x, rows), b);
    ActiveOne(One(y, rows), b);
    assert map[b := x][b := y] == map[b := y] && map[b := y][b := z] == map[b := z];
  }

  /** From a proven saga to its signed event. */
  lemma Signs(candidate: Candidate, rows: Rows, log: seq<Event>, event: Event, read: Saga, since: int, now: int)
    requires since <= now && event.createdAt < now + LIFETIME
    requires event == Event(MaxCreated(rows.history, rows.history.Keys, now), candidate.root, SERVERS, now + LIFETIME)
    requires Reached(Itself(), Sys(One(Proven(candidate), rows), Claimed(read), HELD, log), since)
    ensures var y := Proven(candidate).(signed := Some(event));
      Reached(Itself(), Sys(One(y, rows), Signed(y), HELD, log + [event]), now)
  {
    hide Reached, MaxCreated, Take, One;
    var x := Proven(candidate);
    var y := x.(signed := Some(event));
    SettleAndTemplate(x, rows, log, event, read, now);
    SignAndAcknowledge(x, rows, log, event, now);
    ReachedStep(Itself(), Sys(One(x, rows), Claimed(read), HELD, log), since, SettleStep, now, Sys(One(x, rows), Settled(x), HELD, log));
    ReachedStep(Itself(), Sys(One(x, rows), Settled(x), HELD, log), now, TemplateStep(now, LIFETIME), now, Sys(One(x, rows), Signing(x, event), HELD, log));
    ReachedStep(Itself(), Sys(One(x, rows), Signing(x, event), HELD, log), now, SignStep(now), now, Sys(One(y, rows), Signed(y), HELD, log + [event]));
  }

  /** ... and on to its admission. */
  lemma Publishes(candidate: Candidate, rows: Rows, log: seq<Event>, event: Event, read: Saga, since: int, now: int)
    requires since <= now && event.createdAt < now + LIFETIME
    requires event == Event(MaxCreated(rows.history, rows.history.Keys, now), candidate.root, SERVERS, now + LIFETIME)
    requires Reached(Itself(), Sys(One(Proven(candidate), rows), Claimed(read), HELD, log), since)
    ensures Reached(Itself(), Sys(One(Published(candidate, event), rows), Idle, HELD, log + [event]), now)
  {
    hide Reached, MaxCreated, Take, One;
    var y := Proven(candidate).(signed := Some(event));
    var z := y.(acknowledged := Some("r"));
    var more := log + [event];
    Signs(candidate, rows, log, event, read, since, now);
    SignAndAcknowledge(Proven(candidate), rows, log, event, now);
    CommitAndAdmit(z, rows, more);
    ReachedStep(Itself(), Sys(One(y, rows), Signed(y), HELD, more), now, AcknowledgeStep("r"), now, Sys(One(z, rows), Acknowledged(z), HELD, more));
    var w := z.(committed := true);
    ReachedStep(Itself(), Sys(One(z, rows), Acknowledged(z), HELD, more), now, CommitStep, now, Sys(One(w, rows), Committed(w), HELD, more));
    ReachedStep(Itself(), Sys(One(w, rows), Committed(w), HELD, more), now, AdmitStep, now, Sys(One(w.(admitted := true), rows), Idle, HELD, more));
    assert w.(admitted := true) == Published(candidate, event);
  }

  lemma ProvenMore(r: Repo, b: BatchId, h: Hash)
    requires (b, h) in r.blobs && forall g :: g in BlobsOf(r, b) <==> g == h || g in ProvenOn(r, b, "s")
    ensures var t := r.(proofs := r.proofs + {(b, "s", h)}); h in BlobsOf(t, b) && ProvenOn(t, b, "s") == BlobsOf(t, b)
  {
    var t := r.(proofs := r.proofs + {(b, "s", h)});
    assert (b, h).1 in BlobsOf(t, b) && BlobsOf(t, b) == BlobsOf(r, b);
    forall g ensures g in ProvenOn(t, b, "s") <==> g in BlobsOf(t, b) {
      if g in ProvenOn(r, b, "s") { assert (b, "s", g) in t.proofs; }
    }
  }

  /** The last missing proof completes the server. */
  lemma Proves(candidate: Candidate, rows: Rows, log: seq<Event>, h: Hash, now: int)
    requires ("s", h) in HELD && (candidate.batchId, h) in rows.blobs
    requires var b := candidate.batchId; var r := One(NewSaga(candidate, SERVERS), rows);
      forall g :: g in BlobsOf(r, b) <==> g == h || g in ProvenOn(r, b, "s")
    requires Reached(Itself(), Sys(One(NewSaga(candidate, SERVERS), rows), Claimed(NewSaga(candidate, SERVERS)), HELD, log), now)
    ensures var after := rows.(proofs := rows.proofs + {(candidate.batchId, "s", h)});
      Reached(Itself(), Sys(One(Proven(candidate), after), Claimed(NewSaga(candidate, SERVERS)), HELD, log), now)
  {
    var b, x := candidate.batchId, NewSaga(candidate, SERVERS);
    var after := rows.(proofs := rows.proofs + {(b, "s", h)});
    var r, t := One(x, rows), One(x, after);
    hide Reached;
    ActiveOne(r, b);
    ActiveOne(t, b);
    ReachedStep(Itself(), Sys(r, Claimed(x), HELD, log), now, ProofStep("s", h), now, Sys(t, Claimed(x), HELD, log));
    ProvenMore(r, b, h);
    assert t.blobs == r.blobs && h in BlobsOf(t, b);
    assert map[b := x][b := Proven(candidate)] == map[b := Proven(candidate)];
    ReachedStep(Itself(), Sys(t, Claimed(x), HELD, log), now, CompleteStep("s"), now, Sys(One(Proven(candidate), after), Claimed(x), HELD, log));
  }

  // ---- The first batch, and its refresh ----

  const ROWS_1: Rows := Rows(map[], {(1, 10)}, {(1, "s", 10)})
  const ROWS_2: Rows := Rows(map[1 := Published(FIRST, EVENT_1)], {(2, 10)}, {(2, "s", 10)})

  lemma FirstHeld()
    ensures Reached(Itself(), Sys(EMPTY_REPO, Idle, HELD, []), 0)
  {
    hide Reached;
    ReachedStart(Itself());
    var a: Holdings := {} + {("s", 10)};
    var b := a + {("s", 20)};
    ReachedStep(Itself(), INIT, 0, HeldStep("s", 10), 0, Sys(EMPTY_REPO, Idle, a, []));
    ReachedStep(Itself(), Sys(EMPTY_REPO, Idle, a, []), 0, HeldStep("s", 20), 0, Sys(EMPTY_REPO, Idle, b, []));
    ReachedStep(Itself(), Sys(EMPTY_REPO, Idle, b, []), 0, HeldStep("s", 30), 0, Sys(EMPTY_REPO, Idle, b + {("s", 30)}, []));
    assert b + {("s", 30)} == HELD;
  }

  lemma FirstClaimed()
    ensures var x := NewSaga(FIRST, SERVERS);
      Reached(Itself(), Sys(One(x, Rows(map[], {(1, 10)}, {})), Claimed(x), HELD, []), 0)
  {
    hide Reached;
    FirstHeld();
    var x := NewSaga(FIRST, SERVERS);
    var r, t := RecordPending(EMPTY_REPO, FIRST, {10}), One(x, Rows(map[], {(1, 10)}, {}));
    ReachedStep(Itself(), Sys(EMPTY_REPO, Idle, HELD, []), 0, PendingStep(FIRST, {10}), 0, Sys(r, Idle, HELD, []));
    ReachedStep(Itself(), Sys(r, Idle, HELD, []), 0, RefreshStep(0, LEAD), 0, Sys(r, Refreshed, HELD, []));
    ActiveOne(t, 1);
    assert InsertSaga(r, FIRST, SERVERS) == t by {
      assert (set h | h in {10} :: (1, h)) == {(1, 10)};
    }
    ReachedStep(Itself(), Sys(r, Refreshed, HELD, []), 0, ClaimStep(SERVERS), 0, Sys(t, Claimed(x), HELD, []));
  }

  lemma FirstPublished()
    ensures Reached(Itself(), Sys(One(Published(FIRST, EVENT_1), ROWS_1), Idle, HELD, [EVENT_1]), 0)
  {
    hide Reached;
    var x, none := NewSaga(FIRST, SERVERS), Rows(map[], {(1, 10)}, {});
    FirstClaimed();
    assert forall g :: g in BlobsOf(One(x, none), 1) <==> g == 10;
    Proves(FIRST, none, [], 10, 0);
    assert {} + {(1, "s", 10)} == {(1, "s", 10)};
    assert ROWS_1.history.Keys == {};
    Publishes(FIRST, ROWS_1, [], EVENT_1, x, 0, 0);
    assert [] + [EVENT_1] == [EVENT_1];
  }

  /** At 90 it is refreshed under the next id, which no batch has been given yet. */
  lemma FirstRefreshed()
    ensures Reached(Itself(), Sys(One(Proven(AGAIN), ROWS_2), Claimed(Proven(AGAIN)), HELD, [EVENT_1]), 90)
  {
    hide Reached;
    FirstPublished();
    var r, t := One(Published(FIRST, EVENT_1), ROWS_1), One(Proven(AGAIN), ROWS_2);
    ActiveOne(r, 1);
    assert r.sagas.Keys + r.history.Keys == {1};
    assert NextBatchId(r) == 2;
    assert BeginRefresh(r, 90, LEAD).0 == t by {
      assert (map[1 := Published(FIRST, EVENT_1)] - {1})[2 := Proven(AGAIN)] == map[2 := Proven(AGAIN)];
      assert MoveBlobs({(1, 10)}, 1, 2) == {(2, 10)};
      assert MoveProofs({(1, "s", 10)}, 1, 2) == {(2, "s", 10)};
    }
    ReachedStep(Itself(), Sys(r, Idle, HELD, [EVENT_1]), 0, RefreshStep(90, LEAD), 90, Sys(t, Refreshed, HELD, [EVENT_1]));
    ActiveOne(t, 2);
    ReachedStep(Itself(), Sys(t, Refreshed, HELD, [EVENT_1]), 90, ClaimStep(SERVERS), 90, Sys(t, Claimed(Proven(AGAIN)), HELD, [EVENT_1]));
  }

  lemma Dates()
    ensures MaxCreated(map[1 := Published(FIRST, EVENT_1)], {1}, 90) == 90
  {
    assert {1} - {LeastId({1})} == {};
  }

  lemma RefreshPublished()
    ensures Reached(Itself(), Sys(One(Published(AGAIN, EVENT_2), ROWS_2), Idle, HELD, [EVENT_1, EVENT_2]), 90)
  {
    hide Reached, MaxCreated;
    FirstRefreshed();
    Dates();
    assert ROWS_2.history.Keys == {1};
    Publishes(AGAIN, ROWS_2, [EVENT_1], EVENT_2, Proven(AGAIN), 90, 90);
    assert [EVENT_1] + [EVENT_2] == [EVENT_1, EVENT_2];
  }

  // ---- The second batch is given the same id ----

  const ROWS_3: Rows := Rows(map[1 := Published(FIRST, EVENT_1), 2 := Published(AGAIN, EVENT_2)], {(2, 10), (2, 20)}, {(2, "s", 10)})

  /** Its claim archives the refreshed saga under the id it takes itself. */
  lemma SecondClaimed()
    ensures var x := NewSaga(SECOND, SERVERS); Reached(Itself(), Sys(One(x, ROWS_3), Claimed(x), HELD, [EVENT_1, EVENT_2]), 90)
  {
    hide Reached;
    RefreshPublished();
    var log := [EVENT_1, EVENT_2];
    var x, r := NewSaga(SECOND, SERVERS), One(Published(AGAIN, EVENT_2), ROWS_2);
    var p, t := RecordPending(r, SECOND, {20}), One(x, ROWS_3);
    ReachedStep(Itself(), Sys(r, Idle, HELD, log), 90, PendingStep(SECOND, {20}), 90, Sys(p, Idle, HELD, log));
    ActiveOne(p, 2);
    ReachedStep(Itself(), Sys(p, Idle, HELD, log), 90, RefreshStep(90, LEAD), 90, Sys(p, Refreshed, HELD, log));
    var a := Archive(p);
    assert a.sagas == map[] && a.history == ROWS_3.history;
    assert InsertSaga(a, SECOND, SERVERS) == t by {
      assert (set h | h in {20} :: (2, h)) == {(2, 20)};
      assert {(2, 10)} + {(2, 20)} == {(2, 10), (2, 20)};
    }
    ActiveOne(t, 2);
    ReachedStep(Itself(), Sys(p, Refreshed, HELD, log), 90, ClaimStep(SERVERS), 90, Sys(t, Claimed(x), HELD, log));
  }

  /** Two rows now stand under one id.  A third batch supersedes the second before it is signed;
      archiving the second then overwrites the refreshed saga with its event. */
  lemma ClaimLosesEvent() returns (s: Sys, t: Sys)
    ensures Reached(Itself(), s, 90) && Take(Itself(), s, ClaimStep(SERVERS)) == Some(t) && Reached(Itself(), t, 90)
    ensures RecordedAt(s.repo, 2, EVENT_2) && !Logged(t.repo, EVENT_2)
    ensures t == Sys(One(NewSaga(THIRD, SERVERS), ROWS_4), Claimed(NewSaga(THIRD, SERVERS)), HELD, [EVENT_1, EVENT_2])
  {
    hide Reached;
    SecondClaimed();
    var log := [EVENT_1, EVENT_2];
    var x, y := NewSaga(SECOND, SERVERS), NewSaga(THIRD, SERVERS);
    var r := One(x, ROWS_3);
    var p := RecordPending(r, THIRD, {30});
    ActiveOne(r, 2);
    ActiveOne(p, 2);
    ReachedStep(Itself(), Sys(r, Claimed(x), HELD, log), 90, SettleStep, 90, Sys(r, Idle, HELD, log));
    ReachedStep(Itself(), Sys(r, Idle, HELD, log), 90, PendingStep(THIRD, {30}), 90, Sys(p, Idle, HELD, log));
    ReachedStep(Itself(), Sys(p, Idle, HELD, log), 90, RefreshStep(90, LEAD), 90, Sys(p, Refreshed, HELD, log));
    s, t := Sys(p, Refreshed, HELD, log), Sys(One(y, ROWS_4), Claimed(y), HELD, log);
    ThirdClaim(p);
    ReachedStep(Itself(), s, 90, ClaimStep(SERVERS), 90, t);
  }

  const ROWS_4: Rows := Rows(map[1 := Published(FIRST, EVENT_1), 2 := NewSaga(SECOND, SERVERS)], {(2, 10), (2, 20), (3, 30)}, {(2, "s", 10)})

  lemma ThirdClaim(p: Repo)
    requires p == RecordPending(One(NewSaga(SECOND, SERVERS), ROWS_3), THIRD, {30})
    ensures ClaimPublication(p, SERVERS) == (One(NewSaga(THIRD, SERVERS), ROWS_4), Some(Some(NewSaga(THIRD, SERVERS))))
  {
    ActiveOne(p, 2);
    assert PriorIds(p.history, 20, SERVERS) == {};
    assert CreditPrior(p) == p;
    var a, t := Archive(p), One(NewSaga(THIRD, SERVERS), ROWS_4);
    assert a.sagas == map[] && a.history == ROWS_4.history;
    assert InsertSaga(a, THIRD, SERVERS) == t by {
      assert (set h | h in {30} :: (3, h)) == {(3, 30)};
      assert {(2, 10), (2, 20)} + {(3, 30)} == {(2, 10), (2, 20), (3, 30)};
    }
    ActiveOne(t, 3);
  }

  // ---- What the loss does to the dates ----

  const EVENT_3: Event := Event(90, 30, SERVERS, 190)

  lemma DatesAfterLoss()
    ensures MaxCreated(ROWS_4.history, ROWS_4.history.Keys, 90) == 90
  {
    assert ROWS_4.history.Keys == {1, 2};
    assert LeastId({1, 2}) == 1 && {1, 2} - {1} == {2};
    assert LeastId({2}) == 2 && {2} - {2} == {};
    assert MaxCreated(ROWS_4.history, {}, 90) == 90;
    assert MaxCreated(ROWS_4.history, {2}, 90) == 90;
  }

  /** With the event its date is forgotten: the third batch, signed within the same second, is given
      the date of the second. */
  lemma EventsDatedAlike() returns (s: Sys)
    ensures Reached(Itself(), s, 90) && s.log == [EVENT_1, EVENT_2, EVENT_3] && EVENT_2.createdAt == EVENT_3.createdAt
  {
    hide Reached, MaxCreated;
    var before, t := ClaimLosesEvent();
    var x := NewSaga(THIRD, SERVERS);
    assert forall g :: g in BlobsOf(One(x, ROWS_4), 3) <==> g == 30;
    Proves(THIRD, ROWS_4, [EVENT_1, EVENT_2], 30, 90);
    var rows := ROWS_4.(proofs := ROWS_4.proofs + {(3, "s", 30)});
    DatesAfterLoss();
    Signs(THIRD, rows, [EVENT_1, EVENT_2], EVENT_3, x, 90, 90);
    var y := Proven(THIRD).(signed := Some(EVENT_3));
    s := Sys(One(y, rows), Signed(y), HELD, [EVENT_1, EVENT_2] + [EVENT_3]);
  }

  // ---- Where no third batch comes ----

  const EVENT_S: Event := Event(91, 20, SERVERS, 190)

  lemma DatesOfBoth()
    ensures MaxCreated(ROWS_3.history, ROWS_3.history.Keys, 90) == 91
  {
    assert ROWS_3.history.Keys == {1, 2};
    assert LeastId({1, 2}) == 1 && {1, 2} - {1} == {2};
    assert LeastId({2}) == 2 && {2} - {2} == {};
    assert MaxCreated(ROWS_3.history, {}, 90) == 90;
    assert MaxCreated(ROWS_3.history, {2}, 90) == 91;
  }

  /** The second batch is published, and its own refresh drops its event: the row that stands under
      its id keeps it out of the archive. */
  lemma RefreshLosesEvent() returns (s: Sys, t: Sys)
    ensures Reached(Itself(), s, 90) && Take(Itself(), s, RefreshStep(180, LEAD)) == Some(t)
    ensures RecordedAt(s.repo, 2, EVENT_S) && !Logged(t.repo, EVENT_S)
  {
    hide Reached, MaxCreated;
    SecondClaimed();
    var x, log := NewSaga(SECOND, SERVERS), [EVENT_1, EVENT_2];
    assert forall g :: g in BlobsOf(One(x, ROWS_3), 2) <==> g == 20 || g in ProvenOn(One(x, ROWS_3), 2, "s") by {
      assert forall g :: g in ProvenOn(One(x, ROWS_3), 2, "s") <==> (2, "s", g) in ROWS_3.proofs;
    }
    Proves(SECOND, ROWS_3, log, 20, 90);
    var rows := ROWS_3.(proofs := ROWS_3.proofs + {(2, "s", 20)});
    DatesOfBoth();
    Publishes(SECOND, rows, log, EVENT_S, x, 90, 90);
    s := Sys(One(Published(SECOND, EVENT_S), rows), Idle, HELD, log + [EVENT_S]);
    ActiveOne(s.repo, 2);
    var r := BeginRefresh(s.repo, 180, LEAD).0;
    t := s.(repo := r, pc := Refreshed);
    assert r.sagas.Keys == {NextBatchId(s.repo)} && r.history == rows.history;
  }
}
