/** Changes are queued and recomputed one after another, while more of them arrive. */
module EligibilityRuns {
  import opened Manifests
  import opened Eligibility

  /** What the repository reports as changed. */
  datatype Change = Path(hash: PathHash) | Nar(route: string)

  const NAR_PREFIX: string := "nar/"
  const HASH_CHARACTERS: nat := 32

  /** How `affectedCandidates` reads the report. */
  function ChangeOf(changed: string): Change {
    if NAR_PREFIX <= changed then Nar(changed)
    else Path(if |changed| <= HASH_CHARACTERS then changed else changed[..HASH_CHARACTERS])
  }

  /** The row the lookup may answer with. */
  ghost predicate IsSeed(st: Staged, change: Change, seed: PathHash) {
    match change
    case Path(h) => seed == h
    case Nar(route) => seed in Sharing(st, route)
  }

  /** A recomputation under way: what it captured when it began, and how far its passes got. */
  datatype Job = Job(
    change: Change,
    captured: Staged,
    area: set<PathHash>,
    committed: set<PathHash>,
    candidates: seq<PathHash>,
    admitted: set<PathHash>,
    remaining: seq<PathHash>,
    progressed: bool)

  /** `lost` are the changes whose recomputation threw. */
  datatype Sys = Sys(staged: Staged, known: set<PathHash>, queue: seq<Change>, job: Option<Job>, lost: seq<Change>)

  /** What runs between two suspension points.  A scan looks a candidate's NAR up as it is then, and
      asks about the references captured at the beginning. */
  datatype Step =
    | Record(hash: PathHash, info: Info, references: set<PathHash>)
    | Stage(route: string)
    | Discard(route: string)
    | Begin
    | Scan
    | Finish
    | Throw

  /** A NAR is staged under `nar/`, and no two narinfos share one. */
  ghost predicate OwnNars(st: Staged) {
    && (forall h :: h in st.infos ==> NAR_PREFIX <= st.infos[h].narRoute)
    && (forall a, b :: a in st.infos && b in st.infos && st.infos[a].narRoute == st.infos[b].narRoute ==> a == b)
  }

  ghost predicate Next(lower: iset<PathHash>, a: Sys, step: Step, b: Sys) {
    match step
    case Record(h, info, references) =>
      !(NAR_PREFIX <= h) && |h| == HASH_CHARACTERS
      && b == a.(staged := RecordNarInfo(a.staged, h, info, references), queue := a.queue + [ChangeOf(h)])
    case Stage(route) =>
      b == if route in a.staged.nars then a else a.(staged := StageNar(a.staged, route), queue := a.queue + [ChangeOf(route)])
    case Discard(route) => b == a.(staged := a.staged.(nars := a.staged.nars - {route}))
    case Begin => a.job.None? && a.queue != [] && Begun(a, b)
    case Scan => a.job.Some? && b == a.(job := Some(Scanned(lower, a.staged, a.job.value))) && CanScan(a.job.value)
    case Finish => a.job.Some? && !CanScan(a.job.value) && b == Finished(a, a.job.value)
    case Throw =>
      if a.job.Some? then b == Abandoned(a, a.job.value)
      else a.queue != [] && b == a.(queue := a.queue[1..], lost := a.lost + [a.queue[0]])
  }

  /** The candidates of an area, in some order. */
  ghost predicate IsCandidates(st: Staged, area: set<PathHash>, candidates: seq<PathHash>) {
    forall h :: h in candidates <==> h in area && h in st.infos
  }

  /** The area `affectedCandidates` looks at: none without a seed. */
  ghost predicate AreaOf(st: Staged, change: Change, area: set<PathHash>) {
    if exists seed :: IsSeed(st, change, seed)
    then exists seed :: IsSeed(st, change, seed) && IsAffected(st, seed, area)
    else area == {}
  }

  function NewJob(change: Change, st: Staged, area: set<PathHash>, known: set<PathHash>, candidates: seq<PathHash>): Job {
    Job(change, st, area, known, candidates, {}, candidates, false)
  }

  /** The queries at the beginning. */
  ghost predicate Begun(a: Sys, b: Sys)
    requires a.queue != []
  {
    exists area, candidates ::
      && AreaOf(a.staged, a.queue[0], area) && IsCandidates(a.staged, area, candidates)
      && b == a.(queue := a.queue[1..], job := Some(NewJob(a.queue[0], a.staged, area, a.known, candidates)))
  }

  /** A pass goes on while candidates remain, and another follows one that made progress. */
  predicate CanScan(j: Job) {
    j.remaining != [] || (j.progressed && j.candidates != [])
  }

  ghost predicate ClosedIn(st: Staged, lower: iset<PathHash>, known: set<PathHash>, h: PathHash) {
    forall r :: (h, r) in st.refs ==> r == h || r in known || r in lower
  }

  /** One candidate of a pass. */
  ghost function Scanned(lower: iset<PathHash>, st: Staged, j: Job): Job {
    if j.remaining == [] then j.(remaining := j.candidates, progressed := false)
    else
      var h, known := j.remaining[0], j.committed + j.admitted;
      if h !in known && h in j.captured.infos && j.captured.infos[h].narRoute in st.nars && ClosedIn(j.captured, lower, known, h)
      then j.(remaining := j.remaining[1..], admitted := j.admitted + {h}, progressed := true)
      else j.(remaining := j.remaining[1..])
  }

  /** The commit reads the rows as they are now, and throws where one is gone. */
  ghost predicate Committable(st: Staged, admitted: set<PathHash>) {
    forall h :: h in admitted ==> h in st.infos && st.infos[h].route in st.nars && st.infos[h].narRoute in st.nars
  }

  ghost function Finished(a: Sys, j: Job): Sys {
    if Committable(a.staged, j.admitted) then a.(known := a.known + j.admitted, job := None)
    else Abandoned(a, j)
  }

  ghost function Abandoned(a: Sys, j: Job): Sys {
    a.(job := None, lost := a.lost + [j.change])
  }

  // ---- What is waiting has a change behind it ----

  ghost predicate Queued(st: Staged, queue: seq<Change>, h: PathHash) {
    exists i :: 0 <= i < |queue| && IsSeed(st, queue[i], h)
  }

  /** A change for `h` is still to be recomputed, or was lost. */
  ghost predicate Awaits(st: Staged, sys: Sys, h: PathHash) {
    Queued(st, sys.queue, h) || Queued(st, sys.lost, h)
  }

  /** Between recomputations, whatever could be admitted is itself the subject of such a change. */
  ghost predicate Pending(lower: iset<PathHash>, sys: Sys) {
    forall h :: Eligible(sys.staged, lower, sys.known, h) && h !in sys.known ==> Awaits(sys.staged, sys, h)
  }

  /** Where nothing is queued for `g` since the beginning, its row, its references and its NAR are
      those of the beginning. */
  ghost predicate Unchanged(was: Staged, st: Staged, queue: seq<Change>, g: PathHash) {
    g in st.infos && !Queued(st, queue, g) ==>
      && g in was.infos && was.infos[g] == st.infos[g]
      && (forall r :: (g, r) in was.refs <==> (g, r) in st.refs)
      && (st.infos[g].narRoute in st.nars ==> was.infos[g].narRoute in was.nars)
  }

  /** A candidate the pass left out needs no second look: it is in, it lacks a reference, or it has
      no NAR unless a change is queued for it. */
  ghost predicate LeftOut(lower: iset<PathHash>, st: Staged, queue: seq<Change>, j: Job, g: PathHash) {
    || g in j.committed + j.admitted
    || !ClosedIn(j.captured, lower, j.committed + j.admitted, g)
    || (g in st.infos && st.infos[g].narRoute in st.nars ==> Queued(st, queue, g))
  }

  /** During a recomputation. */
  ghost predicate Working(lower: iset<PathHash>, sys: Sys, j: Job) {
    && j.committed == sys.known && Backward(j.captured, j.area) && IsCandidates(j.captured, j.area, j.candidates)
    && (forall h :: h in j.admitted ==> h in j.candidates)
    && (forall i :: 0 <= i < |j.remaining| ==> j.remaining[i] in j.candidates)
    && (forall g :: IsSeed(j.captured, j.change, g) ==> g in j.area)
    && (forall g :: Eligible(j.captured, lower, sys.known, g) && g !in sys.known ==>
          IsSeed(j.captured, j.change, g) || Awaits(j.captured, sys, g))
    && (forall g :: Unchanged(j.captured, sys.staged, sys.queue, g))
    && (!j.progressed ==> forall g :: g in j.candidates && g !in j.remaining ==> LeftOut(lower, sys.staged, sys.queue, j, g))
  }

  ghost predicate Covered(lower: iset<PathHash>, sys: Sys) {
    match sys.job
    case None => Pending(lower, sys)
    case Some(j) => Working(lower, sys, j)
  }

  // ---- Changes arriving ----

  lemma QueuedMore(st: Staged, queue: seq<Change>, change: Change, h: PathHash)
    requires Queued(st, queue, h) || IsSeed(st, change, h)
    ensures Queued(st, queue + [change], h)
  {
    var q := queue + [change];
    if Queued(st, queue, h) {
      var i :| 0 <= i < |queue| && IsSeed(st, queue[i], h);
      assert IsSeed(st, q[i], h);
    } else {
      assert IsSeed(st, q[|queue|], h);
    }
  }

  /** What is queued for a path stays queued for it while its row stays. */
  lemma StillQueued(was: Staged, st: Staged, queue: seq<Change>, g: PathHash)
    requires Queued(was, queue, g) && (g in was.infos ==> g in st.infos && st.infos[g].narRoute == was.infos[g].narRoute)
    ensures Queued(st, queue, g)
  {
    var i :| 0 <= i < |queue| && IsSeed(was, queue[i], g);
    assert IsSeed(st, queue[i], g);
  }

  /** A step that changes staging and queues one change, all of whose effects are behind it. */
  ghost predicate Arrives(a: Sys, b: Sys, change: Change) {
    && b == a.(staged := b.staged, queue := a.queue + [change])
    && forall g :: g in b.staged.infos && !IsSeed(b.staged, change, g) ==>
         && g in a.staged.infos && a.staged.infos[g] == b.staged.infos[g]
         && (forall r :: (g, r) in a.staged.refs <==> (g, r) in b.staged.refs)
         && (b.staged.infos[g].narRoute in b.staged.nars ==> a.staged.infos[g].narRoute in a.staged.nars)
  }

  lemma RecordArrives(lower: iset<PathHash>, a: Sys, h: PathHash, info: Info, references: set<PathHash>, b: Sys)
    requires Next(lower, a, Record(h, info, references), b)
    ensures Arrives(a, b, Path(h))
  {
    assert ChangeOf(h) == Path(h);
  }

  lemma StageArrives(lower: iset<PathHash>, a: Sys, route: string, b: Sys)
    requires OwnNars(a.staged) && Next(lower, a, Stage(route), b) && b != a
    ensures Arrives(a, b, ChangeOf(route))
  {
    forall g | g in b.staged.infos && b.staged.infos[g].narRoute == route ensures IsSeed(b.staged, ChangeOf(route), g) {
      assert NAR_PREFIX <= route;
    }
  }

  lemma UnchangedArrives(a: Sys, b: Sys, change: Change, was: Staged, g: PathHash)
    requires Arrives(a, b, change) && Unchanged(was, a.staged, a.queue, g)
    ensures Unchanged(was, b.staged, b.queue, g)
  {
    if g in b.staged.infos && !Queued(b.staged, b.queue, g) {
      if IsSeed(b.staged, change, g) {
        QueuedMore(b.staged, a.queue, change, g);
      } else if Queued(a.staged, a.queue, g) {
        StillQueued(a.staged, b.staged, a.queue, g);
        QueuedMore(b.staged, a.queue, change, g);
      }
    }
  }

  lemma LeftOutArrives(lower: iset<PathHash>, a: Sys, b: Sys, change: Change, j: Job, g: PathHash)
    requires Arrives(a, b, change) && LeftOut(lower, a.staged, a.queue, j, g)
    ensures LeftOut(lower, b.staged, b.queue, j, g)
  {
    hide ClosedIn;
    if g in b.staged.infos && b.staged.infos[g].narRoute in b.staged.nars {
      if IsSeed(b.staged, change, g) {
        QueuedMore(b.staged, a.queue, change, g);
      } else if Queued(a.staged, a.queue, g) {
        StillQueued(a.staged, b.staged, a.queue, g);
        QueuedMore(b.staged, a.queue, change, g);
      }
    }
  }

  lemma AwaitsArrives(a: Sys, b: Sys, change: Change, st: Staged, g: PathHash)
    requires Arrives(a, b, change) && Awaits(st, a, g)
    ensures Awaits(st, b, g)
  {
    if Queued(st, a.queue, g) {
      QueuedMore(st, a.queue, change, g);
    }
  }

  lemma ArrivesCovered(lower: iset<PathHash>, a: Sys, b: Sys, change: Change)
    requires Covered(lower, a) && Arrives(a, b, change)
    ensures Covered(lower, b)
  {
    match a.job
    case None => ArrivesPending(lower, a, b, change);
    case Some(j) => ArrivesWorking(lower, a, b, change, j);
  }

  lemma ArrivesPending(lower: iset<PathHash>, a: Sys, b: Sys, change: Change)
    requires Pending(lower, a) && Arrives(a, b, change)
    ensures Pending(lower, b)
  {
    forall g | Eligible(b.staged, lower, b.known, g) && g !in b.known ensures Awaits(b.staged, b, g) {
      if IsSeed(b.staged, change, g) {
        QueuedMore(b.staged, a.queue, change, g);
      } else {
        assert Eligible(a.staged, lower, a.known, g);
        if Queued(a.staged, a.queue, g) {
          StillQueued(a.staged, b.staged, a.queue, g);
          QueuedMore(b.staged, a.queue, change, g);
        } else {
          StillQueued(a.staged, b.staged, a.lost, g);
        }
      }
    }
  }

  lemma ArrivesWorking(lower: iset<PathHash>, a: Sys, b: Sys, change: Change, j: Job)
    requires Working(lower, a, j) && Arrives(a, b, change)
    ensures Working(lower, b, j)
  {
    hide Unchanged, LeftOut, Awaits, Arrives, Eligible, Backward;
    assert b.known == a.known by { ArrivesKnown(a, b, change); }
    forall g ensures Unchanged(j.captured, b.staged, b.queue, g) {
      UnchangedArrives(a, b, change, j.captured, g);
    }
    forall g | Eligible(j.captured, lower, b.known, g) && g !in b.known
      ensures IsSeed(j.captured, j.change, g) || Awaits(j.captured, b, g)
    {
      if !IsSeed(j.captured, j.change, g) {
        AwaitsArrives(a, b, change, j.captured, g);
      }
    }
    if !j.progressed {
      forall g | g in j.candidates && g !in j.remaining ensures LeftOut(lower, b.staged, b.queue, j, g) {
        LeftOutArrives(lower, a, b, change, j, g);
      }
    }
  }

  lemma ArrivesKnown(a: Sys, b: Sys, change: Change)
    requires Arrives(a, b, change)
    ensures b.known == a.known && b.job == a.job && b.lost == a.lost
  {
  }

  /** Discarding a body makes nothing eligible. */
  lemma DiscardCovered(lower: iset<PathHash>, a: Sys, route: string, b: Sys)
    requires Covered(lower, a) && Next(lower, a, Discard(route), b)
    ensures Covered(lower, b)
  {
    forall g, queue ensures Queued(a.staged, queue, g) <==> Queued(b.staged, queue, g) {
      if Queued(a.staged, queue, g) {
        StillQueued(a.staged, b.staged, queue, g);
      }
      if Queued(b.staged, queue, g) {
        StillQueued(b.staged, a.staged, queue, g);
      }
    }
    hide Queued;
    match a.job
    case None =>
      forall g | Eligible(b.staged, lower, b.known, g) && g !in b.known ensures Awaits(b.staged, b, g) {
        assert Eligible(a.staged, lower, a.known, g);
      }
    case Some(j) => DiscardWorking(lower, a, route, b, j);
  }

  lemma DiscardWorking(lower: iset<PathHash>, a: Sys, route: string, b: Sys, j: Job)
    requires Working(lower, a, j) && Next(lower, a, Discard(route), b)
    requires forall g, queue :: Queued(a.staged, queue, g) <==> Queued(b.staged, queue, g)
    ensures Working(lower, b, j)
  {
    hide Queued, Eligible, Backward, ClosedIn;
    forall g ensures Unchanged(j.captured, b.staged, b.queue, g) {
      assert Unchanged(j.captured, a.staged, a.queue, g);
    }
    if !j.progressed {
      forall g | g in j.candidates && g !in j.remaining ensures LeftOut(lower, b.staged, b.queue, j, g) {
        assert LeftOut(lower, a.staged, a.queue, j, g);
      }
    }
    forall g | Eligible(j.captured, lower, b.known, g) && g !in b.known
      ensures IsSeed(j.captured, j.change, g) || Awaits(j.captured, b, g)
    {
      assert IsSeed(j.captured, j.change, g) || Awaits(j.captured, a, g);
    }
  }

  // ---- A recomputation ----

  ghost predicate OneSeed(st: Staged, change: Change) {
    forall a, b :: IsSeed(st, change, a) && IsSeed(st, change, b) ==> a == b
  }

  lemma QueuedTail(st: Staged, queue: seq<Change>, g: PathHash)
    requires queue != [] && Queued(st, queue, g)
    ensures IsSeed(st, queue[0], g) || Queued(st, queue[1..], g)
  {
    var i :| 0 <= i < |queue| && IsSeed(st, queue[i], g);
    if i > 0 {
      assert queue[1..][i - 1] == queue[i];
    }
  }

  lemma AreaBackward(st: Staged, change: Change, area: set<PathHash>)
    requires AreaOf(st, change, area) && OneSeed(st, change)
    ensures Backward(st, area) && forall g :: IsSeed(st, change, g) ==> g in area
  {
  }

  lemma BeginCovered(lower: iset<PathHash>, a: Sys, b: Sys)
    requires Covered(lower, a) && Next(lower, a, Begin, b) && OneSeed(a.staged, a.queue[0])
    ensures Covered(lower, b)
  {
    var area, candidates :| AreaOf(a.staged, a.queue[0], area) && IsCandidates(a.staged, area, candidates)
      && b == a.(queue := a.queue[1..], job := Some(NewJob(a.queue[0], a.staged, area, a.known, candidates)));
    AreaBackward(a.staged, a.queue[0], area);
    hide Eligible, Backward, AreaOf;
    forall g | Eligible(a.staged, lower, a.known, g) && g !in a.known
      ensures IsSeed(a.staged, a.queue[0], g) || Awaits(a.staged, b, g)
    {
      if Queued(a.staged, a.queue, g) {
        QueuedTail(a.staged, a.queue, g);
      }
    }
  }

  lemma ThrowCovered(lower: iset<PathHash>, a: Sys, b: Sys)
    requires Covered(lower, a) && a.job.None? && Next(lower, a, Throw, b)
    ensures Covered(lower, b)
  {
    forall g | Eligible(b.staged, lower, b.known, g) && g !in b.known ensures Awaits(b.staged, b, g) {
      if Queued(a.staged, a.queue, g) {
        QueuedTail(a.staged, a.queue, g);
        if IsSeed(a.staged, a.queue[0], g) {
          QueuedMore(a.staged, a.lost, a.queue[0], g);
        }
      } else {
        QueuedMore(a.staged, a.lost, a.queue[0], g);
      }
    }
  }

  /** A larger set closes more. */
  lemma ClosedMore(st: Staged, lower: iset<PathHash>, known: set<PathHash>, more: set<PathHash>, h: PathHash)
    requires known <= more && ClosedIn(st, lower, known, h)
    ensures ClosedIn(st, lower, more, h)
  {
  }

  lemma ScanCovered(lower: iset<PathHash>, a: Sys, b: Sys)
    requires Covered(lower, a) && Next(lower, a, Scan, b)
    ensures Covered(lower, b)
  {
    hide Eligible, Backward, Unchanged, ClosedIn, Queued;
    var j, k := a.job.value, b.job.value;
    assert Working(lower, a, j);
    if j.remaining == [] {
      assert forall g :: g in k.candidates ==> g in k.remaining;
    } else {
      var h := j.remaining[0];
      assert forall g :: g in k.remaining ==> g in j.remaining;
      if !k.progressed {
        ScanLeavesOut(lower, a, j, h);
        forall g | g in k.candidates && g !in k.remaining ensures LeftOut(lower, b.staged, b.queue, k, g) {
          assert g == h || g !in j.remaining;
          assert LeftOut(lower, a.staged, a.queue, j, g);
        }
      }
    }
  }

  /** A candidate that is scanned and not admitted is left out for good reason. */
  lemma ScanLeavesOut(lower: iset<PathHash>, a: Sys, j: Job, h: PathHash)
    requires Working(lower, a, j) && j.remaining != [] && h == j.remaining[0]
    requires Scanned(lower, a.staged, j).admitted == j.admitted && !Scanned(lower, a.staged, j).progressed
    ensures LeftOut(lower, a.staged, a.queue, j, h)
  {
    hide Eligible, Backward, Awaits, ClosedIn, Queued;
    assert Unchanged(j.captured, a.staged, a.queue, h);
  }

  /** Eligible outside the area means eligible when the recomputation began. */
  lemma EligibleThen(lower: iset<PathHash>, a: Sys, j: Job, known: set<PathHash>, g: PathHash)
    requires Working(lower, a, j) && Eligible(a.staged, lower, known, g) && !Queued(a.staged, a.queue, g)
    requires known == a.known || (known == a.known + j.admitted && g !in j.candidates)
    ensures Eligible(j.captured, lower, a.known, g)
    ensures g in j.captured.infos && j.captured.infos[g] == a.staged.infos[g]
  {
    hide Queued, Awaits, LeftOut;
    assert Unchanged(j.captured, a.staged, a.queue, g);
    if known != a.known {
      forall r | (g, r) in j.captured.refs ensures r == g || r in a.known || r in lower {
        assert r in j.admitted ==> r in j.area;
      }
    }
  }

  lemma ThenAwaits(lower: iset<PathHash>, a: Sys, j: Job, g: PathHash)
    requires Working(lower, a, j) && Eligible(j.captured, lower, a.known, g) && g !in a.known
    requires g in j.captured.infos && g in a.staged.infos && j.captured.infos[g] == a.staged.infos[g]
    ensures IsSeed(a.staged, j.change, g) || Awaits(a.staged, a, g)
    ensures g !in j.area ==> Awaits(a.staged, a, g)
  {
    hide Eligible, Unchanged, LeftOut, Backward;
    if Queued(j.captured, a.queue, g) {
      StillQueued(j.captured, a.staged, a.queue, g);
    } else if Queued(j.captured, a.lost, g) {
      StillQueued(j.captured, a.staged, a.lost, g);
    }
  }

  lemma CandidateSettled(lower: iset<PathHash>, a: Sys, j: Job, g: PathHash)
    requires Working(lower, a, j) && !CanScan(j) && g in j.candidates
    requires Eligible(a.staged, lower, a.known + j.admitted, g) && g !in a.known + j.admitted
    ensures Queued(a.staged, a.queue, g)
  {
    hide Queued, Awaits, Backward;
    assert Unchanged(j.captured, a.staged, a.queue, g);
    assert LeftOut(lower, a.staged, a.queue, j, g);
  }

  /** When a recomputation is done, whatever is eligible then has a change of its own behind it. */
  lemma FinishCovered(lower: iset<PathHash>, a: Sys, b: Sys)
    requires Covered(lower, a) && Next(lower, a, Finish, b)
    ensures Covered(lower, b)
  {
    var j := a.job.value;
    if !Committable(a.staged, j.admitted) {
      AbandonCovered(lower, a, b);
      return;
    }
    assert Working(lower, a, j);
    hide Working, Eligible;
    forall g | Eligible(b.staged, lower, b.known, g) && g !in b.known ensures Awaits(b.staged, b, g) {
      if !Queued(a.staged, a.queue, g) {
        assert g in a.staged.infos by { EligibleStaged(a.staged, lower, b.known, g); }
        if g in j.candidates {
          assert j.committed == a.known by { CommittedKnown(lower, a, j); }
          CandidateSettled(lower, a, j, g);
        }
        EligibleThen(lower, a, j, b.known, g);
        OutsideArea(lower, a, j, g);
        ThenAwaits(lower, a, j, g);
      }
    }
  }

  /** A recomputation that throws leaves its own change behind as lost. */
  lemma AbandonCovered(lower: iset<PathHash>, a: Sys, b: Sys)
    requires Covered(lower, a) && a.job.Some? && b == Abandoned(a, a.job.value)
    ensures Covered(lower, b)
  {
    var j := a.job.value;
    assert Working(lower, a, j);
    hide Working, Eligible;
    forall g | Eligible(b.staged, lower, b.known, g) && g !in b.known ensures Awaits(b.staged, b, g) {
      if !Queued(a.staged, a.queue, g) {
        assert g in a.staged.infos by { EligibleStaged(a.staged, lower, b.known, g); }
        EligibleThen(lower, a, j, b.known, g);
        ThenAwaits(lower, a, j, g);
        if IsSeed(a.staged, j.change, g) || Queued(a.staged, a.lost, g) {
          QueuedMore(a.staged, a.lost, j.change, g);
        }
      }
    }
  }

  lemma EligibleStaged(st: Staged, lower: iset<PathHash>, known: set<PathHash>, g: PathHash)
    requires Eligible(st, lower, known, g)
    ensures g in st.infos
  {
  }

  lemma CommittedKnown(lower: iset<PathHash>, a: Sys, j: Job)
    requires Working(lower, a, j)
    ensures j.committed == a.known
  {
  }

  lemma OutsideArea(lower: iset<PathHash>, a: Sys, j: Job, g: PathHash)
    requires Working(lower, a, j) && g in j.captured.infos
    ensures g in j.area ==> g in j.candidates
  {
  }

  // ---- A recomputation nothing interrupts ----

  /** What an uninterrupted recomputation makes of the overlay. */
  ghost predicate Recomputed(lower: iset<PathHash>, st: Staged, change: Change, known: set<PathHash>, after: set<PathHash>) {
    exists area :: AreaOf(st, change, area) && IsLeast(st, lower, area, known, after)
  }

  /** What its passes keep: only what every saturated set has is admitted, and the candidates a pass
      without progress has left behind need no second look. */
  ghost predicate Sensible(lower: iset<PathHash>, j: Job) {
    && Forced(j.captured, lower, Members(j.candidates), j.committed, j.admitted)
    && j.admitted !! j.committed && j.admitted <= Members(j.candidates) <= j.captured.infos.Keys
    && (forall i :: 0 <= i < |j.remaining| ==> j.remaining[i] in j.candidates)
    && (!j.progressed ==> forall g :: g in j.candidates && g !in j.remaining ==> Settled(j.captured, lower, j.committed + j.admitted, g))
  }

  lemma NewJobSensible(lower: iset<PathHash>, change: Change, st: Staged, area: set<PathHash>, known: set<PathHash>, candidates: seq<PathHash>)
    requires IsCandidates(st, area, candidates)
    ensures Sensible(lower, NewJob(change, st, area, known, candidates))
  {
    hide Saturated;
  }

  /** How much is left to do. */
  ghost function Work(j: Job): (nat, nat, nat) {
    (|Members(j.candidates) - j.admitted|, if j.progressed then 1 else 0, |j.remaining|)
  }

  ghost predicate Less(a: (nat, nat, nat), b: (nat, nat, nat)) {
    a.0 < b.0 || (a.0 == b.0 && (a.1 < b.1 || (a.1 == b.1 && a.2 < b.2)))
  }

  lemma ScanSensible(lower: iset<PathHash>, j: Job)
    requires Sensible(lower, j) && CanScan(j)
    ensures Sensible(lower, Scanned(lower, j.captured, j)) && Less(Work(Scanned(lower, j.captured, j)), Work(j))
  {
    hide Forced, Eligible;
    var k := Scanned(lower, j.captured, j);
    if j.remaining != [] {
      var h, known := j.remaining[0], j.committed + j.admitted;
      assert j.remaining == [h] + j.remaining[1..];
      assert h in Members(j.candidates);
      ScannedEligible(j.captured, lower, known, h);
      if k.admitted != j.admitted {
        AdmitOne(j.captured, lower, Members(j.candidates), j.committed, j.admitted, h);
        Fewer(Members(j.candidates) - k.admitted, Members(j.candidates) - j.admitted, h);
      }
    }
  }

  lemma ScannedEligible(st: Staged, lower: iset<PathHash>, known: set<PathHash>, h: PathHash)
    ensures Eligible(st, lower, known, h) <==> h in st.infos && st.infos[h].narRoute in st.nars && ClosedIn(st, lower, known, h)
  {
  }

  /** Passes end with the least fixed point over the candidates, cycles included and whatever their
      order. */
  lemma DoneIsLeast(lower: iset<PathHash>, j: Job)
    requires Sensible(lower, j) && !CanScan(j)
    ensures IsLeast(j.captured, lower, Members(j.candidates), j.committed, j.committed + j.admitted)
  {
    hide Eligible;
    forall h | h in Members(j.candidates) && Eligible(j.captured, lower, j.committed + j.admitted, h) ensures h in j.committed + j.admitted {
      assert Settled(j.captured, lower, j.committed + j.admitted, h);
    }
  }

  /** ... which is the least one over the whole area. */
  lemma DoneRecomputes(lower: iset<PathHash>, j: Job)
    requires Sensible(lower, j) && !CanScan(j) && AreaOf(j.captured, j.change, j.area) && IsCandidates(j.captured, j.area, j.candidates)
    ensures Recomputed(lower, j.captured, j.change, j.committed, j.committed + j.admitted)
  {
    DoneIsLeast(lower, j);
    var st, after := j.captured, j.committed + j.admitted;
    assert IsLeast(st, lower, j.area, j.committed, after) by {
      forall other ensures Saturated(st, lower, j.area, other) <==> Saturated(st, lower, Members(j.candidates), other) {
      }
    }
  }

  /** Recomputing one change answers for it; what else is waiting has its own. */
  lemma RecomputedPending(lower: iset<PathHash>, st: Staged, known: set<PathHash>, queue: seq<Change>, after: set<PathHash>)
    requires queue != [] && Pending(lower, Sys(st, known, queue, None, [])) && OneSeed(st, queue[0])
    requires Recomputed(lower, st, queue[0], known, after)
    ensures Pending(lower, Sys(st, after, queue[1..], None, []))
  {
    var area :| AreaOf(st, queue[0], area) && IsLeast(st, lower, area, known, after);
    LeastWithin(st, lower, area, known, after);
    forall g | Eligible(st, lower, after, g) && g !in after ensures Queued(st, queue[1..], g) {
      assert g !in area;
      assert Backward(st, area);
      assert Eligible(st, lower, known, g);
      assert Awaits(st, Sys(st, known, queue, None, []), g);
      QueuedTail(st, queue, g);
    }
  }

  // ---- Whole runs ----

  ghost predicate Run(lower: iset<PathHash>, trace: seq<Sys>, steps: seq<Step>) {
    && |trace| == |steps| + 1
    && (forall i :: 0 <= i < |steps| ==> Next(lower, trace[i], steps[i], trace[i + 1]))
    && (forall i :: 0 <= i < |trace| ==> OwnNars(trace[i].staged))
  }

  lemma OwnIsOne(st: Staged, change: Change)
    requires OwnNars(st)
    ensures OneSeed(st, change)
  {
  }

  lemma StepCovered(lower: iset<PathHash>, a: Sys, step: Step, b: Sys)
    requires Covered(lower, a) && Next(lower, a, step, b) && OwnNars(a.staged)
    ensures Covered(lower, b)
  {
    match step
    case Record(h, info, references) => RecordArrives(lower, a, h, info, references, b); ArrivesCovered(lower, a, b, Path(h));
    case Stage(route) => if b != a { StageArrives(lower, a, route, b); ArrivesCovered(lower, a, b, ChangeOf(route)); }
    case Discard(route) => DiscardCovered(lower, a, route, b);
    case Begin => OwnIsOne(a.staged, a.queue[0]); BeginCovered(lower, a, b);
    case Scan => ScanCovered(lower, a, b);
    case Finish => FinishCovered(lower, a, b);
    case Throw => if a.job.Some? { AbandonCovered(lower, a, b); } else { ThrowCovered(lower, a, b); }
  }

  lemma {:induction false} RunCovered(lower: iset<PathHash>, trace: seq<Sys>, steps: seq<Step>, n: nat)
    requires Run(lower, trace, steps) && Covered(lower, trace[0]) && n < |trace|
    ensures Covered(lower, trace[n])
  {
    hide Covered, Next, OwnNars;
    if n > 0 {
      RunCovered(lower, trace, steps, n - 1);
      StepCovered(lower, trace[n - 1], steps[n - 1], trace[n - 1 + 1]);
    }
  }

  /** However changes arrive while others are being recomputed: whenever nothing is queued, running
      or lost, nothing that could be in the overlay is missing from it. */
  lemma DrainedIsSaturated(lower: iset<PathHash>, trace: seq<Sys>, steps: seq<Step>, n: nat)
    requires Run(lower, trace, steps) && Covered(lower, trace[0]) && n < |trace|
    requires trace[n].queue == [] && trace[n].job.None? && trace[n].lost == []
    ensures Saturated(trace[n].staged, lower, trace[n].staged.infos.Keys, trace[n].known)
  {
    hide Run, Eligible;
    RunCovered(lower, trace, steps, n);
  }

  function Paths(hashes: seq<PathHash>): seq<Change> {
    seq(|hashes|, i requires 0 <= i < |hashes| => Path(hashes[i]))
  }

  /** `reconcile` queues every staged path, which covers whatever was left undone. */
  lemma ReconcileCovers(lower: iset<PathHash>, st: Staged, known: set<PathHash>, hashes: seq<PathHash>)
    requires forall h :: h in st.infos ==> h in hashes
    ensures Pending(lower, Sys(st, known, Paths(hashes), None, []))
  {
    var queue := Paths(hashes);
    forall h | h in st.infos ensures Queued(st, queue, h) {
      var i :| 0 <= i < |hashes| && hashes[i] == h;
      assert IsSeed(st, queue[i], h);
    }
  }

  // ---- The overlay is closed under references ----

  /** Every admitted path has its references admitted or below, itself aside. */
  ghost predicate ReferencesHeld(lower: iset<PathHash>, st: Staged, known: set<PathHash>) {
    forall h :: h in known ==> ClosedIn(st, lower, known, h)
  }

  /** What a running recomputation has admitted is closed by the references it captured; and the
      references now staged for its candidates add nothing that is missing. */
  ghost predicate Holding(lower: iset<PathHash>, sys: Sys) {
    && ReferencesHeld(lower, sys.staged, sys.known)
    && (sys.job.Some? ==>
         && sys.job.value.committed == sys.known
         && (forall h :: h in sys.job.value.admitted ==>
               h in sys.job.value.candidates && ClosedIn(sys.job.value.captured, lower, sys.known + sys.job.value.admitted, h))
         && (forall i :: 0 <= i < |sys.job.value.remaining| ==> sys.job.value.remaining[i] in sys.job.value.candidates)
         && (forall h :: h in sys.job.value.candidates ==> NoNewNeeds(lower, sys, sys.job.value, h)))
  }

  /** Every reference now staged for `h` was captured, is in already, or is below. */
  ghost predicate NoNewNeeds(lower: iset<PathHash>, sys: Sys, j: Job, h: PathHash) {
    forall r :: (h, r) in sys.staged.refs ==> (h, r) in j.captured.refs || r == h || r in sys.known || r in lower
  }

  /** A path that is already in, or that a running recomputation has captured, does not come back
      with a reference that is neither in nor below nor, in the latter case, captured. */
  ghost predicate Settles(lower: iset<PathHash>, a: Sys, step: Step) {
    step.Record? ==>
      && (step.hash in a.known ==> forall r :: r in step.references ==> r == step.hash || r in a.known || r in lower)
      && (a.job.Some? && step.hash in a.job.value.candidates ==>
           forall r :: r in step.references ==> (step.hash, r) in a.job.value.captured.refs || r == step.hash || r in a.known || r in lower)
  }

  lemma RecordHolds(lower: iset<PathHash>, a: Sys, h: PathHash, info: Info, references: set<PathHash>, b: Sys)
    requires Holding(lower, a) && Next(lower, a, Record(h, info, references), b) && Settles(lower, a, Record(h, info, references))
    ensures Holding(lower, b)
  {
    forall g | g in b.known ensures ClosedIn(b.staged, lower, b.known, g) {
      assert ClosedIn(a.staged, lower, a.known, g);
    }
    if b.job.Some? {
      var j := b.job.value;
      forall g | g in j.candidates ensures NoNewNeeds(lower, b, j, g) {
        assert NoNewNeeds(lower, a, j, g);
      }
    }
  }

  lemma BeginHolds(lower: iset<PathHash>, a: Sys, b: Sys)
    requires Holding(lower, a) && Next(lower, a, Begin, b)
    ensures Holding(lower, b)
  {
    hide ClosedIn, IsAffected;
  }

  lemma ScanHolds(lower: iset<PathHash>, a: Sys, b: Sys)
    requires Holding(lower, a) && Next(lower, a, Scan, b)
    ensures Holding(lower, b)
  {
    var j, k := a.job.value, b.job.value;
    assert k.candidates == j.candidates && k.captured == j.captured;
    forall h | h in k.candidates ensures NoNewNeeds(lower, b, k, h) {
      assert NoNewNeeds(lower, a, j, h);
    }
    hide NoNewNeeds;
    forall h | h in k.admitted ensures h in k.candidates && ClosedIn(k.captured, lower, b.known + k.admitted, h) {
      if h in j.admitted {
        ClosedMore(j.captured, lower, a.known + j.admitted, b.known + k.admitted, h);
      } else {
        ClosedMore(j.captured, lower, j.committed + j.admitted, b.known + k.admitted, h);
      }
    }
  }

  /** What a running recomputation has admitted is closed by the references it captured. */
  ghost predicate JobClosed(lower: iset<PathHash>, sys: Sys) {
    sys.job.Some? ==>
      && sys.job.value.committed == sys.known
      && forall h :: h in sys.job.value.admitted ==>
           ClosedIn(sys.job.value.captured, lower, sys.known + sys.job.value.admitted, h)
  }

  /** A path about to be admitted has meanwhile been recorded with a reference that was not captured
      and is neither itself, nor in or about to be, nor below. */
  ghost predicate NeedsMore(lower: iset<PathHash>, sys: Sys, j: Job) {
    exists h, r :: h in j.admitted && (h, r) in sys.staged.refs && (h, r) !in j.captured.refs
      && r != h && r !in sys.known && r !in j.admitted && r !in lower
  }

  /** A commit keeps the overlay closed if and only if nothing it admits has come to need more since
      it was captured. */
  lemma FinishHoldsIff(lower: iset<PathHash>, a: Sys, b: Sys)
    requires ReferencesHeld(lower, a.staged, a.known) && JobClosed(lower, a) && Next(lower, a, Finish, b)
    ensures ReferencesHeld(lower, b.staged, b.known) <==>
            !(Committable(a.staged, a.job.value.admitted) && NeedsMore(lower, a, a.job.value))
  {
    var j := a.job.value;
    hide Committable;
    if b.known == a.known + j.admitted {
      forall h | h in a.known ensures ClosedIn(b.staged, lower, b.known, h) {
        ClosedMore(a.staged, lower, a.known, b.known, h);
      }
      if !NeedsMore(lower, a, j) {
        forall h | h in j.admitted ensures ClosedIn(b.staged, lower, b.known, h) {
          assert ClosedIn(j.captured, lower, b.known, h);
        }
      }
    }
  }

  /** The steps that open the overlay: a listed path is recorded with a reference that is missing,
      or such a commit. */
  ghost predicate Opens(lower: iset<PathHash>, a: Sys, step: Step) {
    match step
    case Record(h, info, references) => h in a.known && exists r :: r in references && r != h && r !in a.known && r !in lower
    case Finish => a.job.Some? && Committable(a.staged, a.job.value.admitted) && NeedsMore(lower, a, a.job.value)
    case _ => false
  }

  lemma StepJobClosed(lower: iset<PathHash>, a: Sys, step: Step, b: Sys)
    requires Next(lower, a, step, b) && JobClosed(lower, a)
    ensures JobClosed(lower, b)
  {
    hide Committable, OwnNars, IsAffected;
    if step.Scan? {
      var j, k := a.job.value, b.job.value;
      forall h | h in k.admitted ensures ClosedIn(k.captured, lower, b.known + k.admitted, h) {
        ClosedMore(j.captured, lower, a.known + j.admitted, b.known + k.admitted, h);
      }
    }
  }

  lemma StepHoldsIff(lower: iset<PathHash>, a: Sys, step: Step, b: Sys)
    requires Next(lower, a, step, b) && JobClosed(lower, a) && ReferencesHeld(lower, a.staged, a.known)
    ensures ReferencesHeld(lower, b.staged, b.known) <==> !Opens(lower, a, step)
  {
    match step
    case Finish => FinishHoldsIff(lower, a, b);
    case Record(h, info, references) =>
      forall g | g in a.known && g != h ensures ClosedIn(b.staged, lower, a.known, g) {
        assert ClosedIn(a.staged, lower, a.known, g);
      }
    case _ =>
      forall g | g in b.known ensures ClosedIn(b.staged, lower, b.known, g) {
        assert ClosedIn(a.staged, lower, a.known, g);
      }
  }

  /** Over any run: the overlay was closed under references all along if and only if no step opened
      it. */
  lemma {:induction false} RunHoldsIff(lower: iset<PathHash>, trace: seq<Sys>, steps: seq<Step>, n: nat)
    requires Run(lower, trace, steps) && n < |trace|
    requires ReferencesHeld(lower, trace[0].staged, trace[0].known) && JobClosed(lower, trace[0])
    ensures (forall i :: 0 <= i <= n ==> ReferencesHeld(lower, trace[i].staged, trace[i].known))
       <==> (forall i :: 0 <= i < n ==> !Opens(lower, trace[i], steps[i]))
    ensures JobClosed(lower, trace[n])
  {
    hide ReferencesHeld, JobClosed, Next, OwnNars, Opens;
    if n > 0 {
      RunHoldsIff(lower, trace, steps, n - 1);
      assert Next(lower, trace[n - 1], steps[n - 1], trace[n - 1 + 1]);
      StepJobClosed(lower, trace[n - 1], steps[n - 1], trace[n]);
      if forall i :: 0 <= i < n ==> ReferencesHeld(lower, trace[i].staged, trace[i].known) {
        StepHoldsIff(lower, trace[n - 1], steps[n - 1], trace[n]);
      }
    }
  }

  lemma FinishHolds(lower: iset<PathHash>, a: Sys, b: Sys)
    requires Holding(lower, a) && Next(lower, a, Finish, b)
    ensures Holding(lower, b)
  {
    var j := a.job.value;
    FinishHoldsIff(lower, a, b);
    assert forall h :: h in j.admitted ==> NoNewNeeds(lower, a, j, h);
  }

  lemma StepHolds(lower: iset<PathHash>, a: Sys, step: Step, b: Sys)
    requires Next(lower, a, step, b) && Holding(lower, a) && Settles(lower, a, step)
    ensures Holding(lower, b) && a.known <= b.known
  {
    match step
    case Record(h, info, references) => RecordHolds(lower, a, h, info, references, b);
    case Begin => BeginHolds(lower, a, b);
    case Scan => ScanHolds(lower, a, b);
    case Finish => FinishHolds(lower, a, b);
    case Stage(_) => SameReferencesHold(lower, a, b);
    case Discard(_) => SameReferencesHold(lower, a, b);
    case Throw =>
  }

  lemma SameReferencesHold(lower: iset<PathHash>, a: Sys, b: Sys)
    requires Holding(lower, a) && b == a.(staged := b.staged, queue := b.queue) && b.staged.refs == a.staged.refs
    ensures Holding(lower, b)
  {
    forall h | h in b.known ensures ClosedIn(b.staged, lower, b.known, h) {
      assert ClosedIn(a.staged, lower, a.known, h);
    }
    if b.job.Some? {
      var j := b.job.value;
      forall h | h in j.candidates ensures NoNewNeeds(lower, b, j, h) {
        assert NoNewNeeds(lower, a, j, h);
      }
    }
  }

  /** Nothing is ever in the overlay without what it refers to, and nothing leaves it. */
  lemma {:induction false} RunHolds(lower: iset<PathHash>, trace: seq<Sys>, steps: seq<Step>, n: nat)
    requires Run(lower, trace, steps) && n < |trace| && Holding(lower, trace[0])
    requires forall i :: 0 <= i < |steps| ==> Settles(lower, trace[i], steps[i])
    ensures ReferencesHeld(lower, trace[n].staged, trace[n].known) && Holding(lower, trace[n])
    ensures trace[0].known <= trace[n].known
  {
    hide ReferencesHeld, NoNewNeeds, Next, OwnNars, Settles;
    if n > 0 {
      RunHolds(lower, trace, steps, n - 1);
      assert Settles(lower, trace[n - 1], steps[n - 1]);
      StepHolds(lower, trace[n - 1], steps[n - 1], trace[n - 1 + 1]);
    }
  }

  // ---- Where a path is recorded again while it is being scanned ----

  /** One staged path with these references. */
  function Lone(h: PathHash, info: Info, references: set<PathHash>): Staged {
    Staged(map[h := info], (set r | r in references :: (h, r)), {info.route, info.narRoute})
  }

  function LoneJob(h: PathHash, info: Info, r: PathHash): Job {
    NewJob(Path(h), Lone(h, info, {r}), {h}, {}, [h])
  }

  /** The same path, recorded again with one reference more, and its job at some point. */
  function Again(h: PathHash, r: PathHash, q: PathHash, info: Info, job: Option<Job>, known: set<PathHash>): Sys {
    Sys(Lone(h, info, {r, q}), known, [Path(h)], job, [])
  }

  lemma LoneBegins(h: PathHash, r: PathHash, info: Info)
    requires NAR_PREFIX <= info.narRoute && r != h
    ensures var st := Lone(h, info, {r});
      && Next(iset{r}, Sys(st, {}, [Path(h)], None, []), Begin, Sys(st, {}, [], Some(LoneJob(h, info, r)), []))
      && Covered(iset{r}, Sys(st, {}, [Path(h)], None, []))
  {
    var st, queue := Lone(h, info, {r}), [Path(h)];
    assert queue[1..] == [];
    assert IsSeed(st, queue[0], h) && IsAffected(st, h, {h}) && AreaOf(st, queue[0], {h}) && IsCandidates(st, {h}, [h]);
  }

  lemma LoneAgain(h: PathHash, r: PathHash, q: PathHash, info: Info)
    requires |h| == HASH_CHARACTERS && !(NAR_PREFIX <= h)
    ensures Next(iset{r}, Sys(Lone(h, info, {r}), {}, [], Some(LoneJob(h, info, r)), []), Record(h, info, {r, q}),
                 Again(h, r, q, info, Some(LoneJob(h, info, r)), {}))
  {
    var st := RecordNarInfo(Lone(h, info, {r}), h, info, {r, q});
    assert st.infos == map[h := info] && st.refs == Lone(h, info, {r, q}).refs;
    assert [] + [ChangeOf(h)] == [Path(h)];
  }

  lemma AgainScans(h: PathHash, r: PathHash, q: PathHash, info: Info)
    requires r != h
    ensures var job := LoneJob(h, info, r);
      var first, second, third := job.(remaining := [], admitted := {h}, progressed := true),
                                  job.(remaining := [h], admitted := {h}),
                                  job.(remaining := [], admitted := {h});
      && Next(iset{r}, Again(h, r, q, info, Some(job), {}), Scan, Again(h, r, q, info, Some(first), {}))
      && Next(iset{r}, Again(h, r, q, info, Some(first), {}), Scan, Again(h, r, q, info, Some(second), {}))
      && Next(iset{r}, Again(h, r, q, info, Some(second), {}), Scan, Again(h, r, q, info, Some(third), {}))
      && Next(iset{r}, Again(h, r, q, info, Some(third), {}), Finish, Again(h, r, q, info, None, {h}))
  {
    var job := LoneJob(h, info, r);
    assert [h][1..] == [];
    assert {} + {h} == {h};
    assert ClosedIn(job.captured, iset{r}, {}, h);
  }

  /** A path is captured with a reference that the lower layer has.  While the lower layer is asked
      about it, the path is recorded again with a further reference; it is committed all the same,
      and the overlay then lists it without what it refers to. */
  lemma StaleReferencesAdmitted(h: PathHash, r: PathHash, q: PathHash, info: Info) returns (trace: seq<Sys>, steps: seq<Step>)
    requires |h| == HASH_CHARACTERS && !(NAR_PREFIX <= h) && q != h && r != h && q != r && NAR_PREFIX <= info.narRoute
    ensures steps == [Begin, Record(h, info, {r, q}), Scan, Scan, Scan, Finish] && Run(iset{r}, trace, steps)
    ensures trace[0].staged == Lone(h, info, {r}) && Holding(iset{r}, trace[0]) && Covered(iset{r}, trace[0])
    ensures trace[6].known == {h} && !ReferencesHeld(iset{r}, trace[6].staged, trace[6].known)
  {
    hide Next, Covered;
    var job := LoneJob(h, info, r);
    var st := Lone(h, info, {r});
    trace := [Sys(st, {}, [Path(h)], None, []), Sys(st, {}, [], Some(job), []), Again(h, r, q, info, Some(job), {}),
              Again(h, r, q, info, Some(job.(remaining := [], admitted := {h}, progressed := true)), {}),
              Again(h, r, q, info, Some(job.(remaining := [h], admitted := {h})), {}),
              Again(h, r, q, info, Some(job.(remaining := [], admitted := {h})), {}), Again(h, r, q, info, None, {h})];
    steps := [Begin, Record(h, info, {r, q}), Scan, Scan, Scan, Finish];
    LoneBegins(h, r, info);
    LoneAgain(h, r, q, info);
    AgainScans(h, r, q, info);
    assert (h, q) in trace[6].staged.refs && !ClosedIn(trace[6].staged, iset{r}, {h}, h);
  }
}
