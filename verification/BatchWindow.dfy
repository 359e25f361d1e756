/** The publication window: generations marked dirty gather in one open window until a timer turns
    it into a batch. */
module BatchWindow {
  import opened Manifests

  type Generation = nat
  type Token = nat
  type Time = int

  const MAXIMUM_DELAY: Time := 60000

  datatype Window = Window(token: Token, generation: Generation, openedAt: Time, lastDirtyAt: Time, baseRoot: Option<string>)

  datatype Batch = Batch(id: nat, token: Token, generation: Generation, baseRoot: Option<string>)

  /** The clock row and the batch table with its autoincrement. */
  datatype Tables = Tables(nextToken: Token, active: Option<Window>, batches: map<nat, Batch>, nextId: nat)

  /** A timer set for a token, at the time it was set. */
  datatype Timer = Timer(token: Token, deadline: Time)

  /** The scheduler's fields; `quiet` and `maximum` name timers that have not fired. */
  datatype Scheduler = Scheduler(quiet: Option<Timer>, maximum: Option<Timer>, closed: bool)

  // ---- The repository ----

  function Max(a: int, b: int): int {
    if a > b then a else b
  }

  function Min(a: int, b: int): int {
    if a < b then a else b
  }

  /** `markPublicationDirty` */
  function MarkDirty(t: Tables, generation: Generation, now: Time, baseRoot: Option<string>): (Tables, Window) {
    var w := match t.active
      case None => Window(t.nextToken, generation, now, now, baseRoot)
      case Some(w) => Window(w.token, Max(generation, w.generation), w.openedAt, now, baseRoot);
    (t.(nextToken := if t.active.None? then t.nextToken + 1 else t.nextToken, active := Some(w)), w)
  }

  /** `claimPublicationBatch`; a token already in the table breaks its uniqueness and changes
      nothing. */
  function Claim(t: Tables, token: Token): (Tables, Option<Batch>) {
    if t.active.None? || t.active.value.token != token || (exists id :: id in t.batches && t.batches[id].token == token) then (t, None)
    else
      var batch := Batch(t.nextId, token, t.active.value.generation, t.active.value.baseRoot);
      (t.(active := None, batches := t.batches[t.nextId := batch], nextId := t.nextId + 1), Some(batch))
  }

  // ---- The scheduler ----

  /** `#arm` */
  function Arm(w: Window, quietDelay: Time, now: Time): (Timer, Timer) {
    (Timer(w.token, now + Max(0, w.lastDirtyAt + quietDelay - now)), Timer(w.token, now + Max(0, w.openedAt + MAXIMUM_DELAY - now)))
  }

  function Armed(w: Window, quietDelay: Time, now: Time, closed: bool): Scheduler {
    var (quiet, maximum) := Arm(w, quietDelay, now);
    Scheduler(Some(quiet), Some(maximum), closed)
  }

  // ---- Runs ----

  /** The tables, the scheduler of the current process, the time it last armed, and what was ever
      marked dirty or claimed. */
  datatype Sys = Sys(tables: Tables, scheduler: Scheduler, armedAt: Time, dirtied: set<Generation>, claimed: seq<Batch>)

  datatype Step =
    | Dirty(generation: Generation, now: Time, baseRoot: Option<string>)
    | Fire(timer: Timer, now: Time)
    | Forget(id: nat)
    | Close
    | Restart(now: Time)

  /** A timer fires once its deadline has come; a batch row goes away once its saga is settled. */
  ghost predicate Allowed(sys: Sys, step: Step) {
    match step
    case Fire(timer, now) => (sys.scheduler.quiet == Some(timer) || sys.scheduler.maximum == Some(timer)) && timer.deadline <= now
    case _ => true
  }

  function Take(sys: Sys, quietDelay: Time, step: Step): Sys {
    var t, s := sys.tables, sys.scheduler;
    match step
    case Dirty(generation, now, baseRoot) =>
      if s.closed then sys
      else
        var (after, w) := MarkDirty(t, generation, now, baseRoot);
        Sys(after, Armed(w, quietDelay, now, false), now, sys.dirtied + {generation}, sys.claimed)
    case Fire(timer, now) =>
      if s.closed then sys
      else
        var (after, batch) := Claim(t, timer.token);
        sys.(tables := after, scheduler := Scheduler(None, None, false),
             claimed := if batch.Some? then sys.claimed + [batch.value] else sys.claimed)
    case Forget(id) => sys.(tables := t.(batches := t.batches - {id}))
    case Close => sys.(scheduler := Scheduler(None, None, true))
    case Restart(now) =>
      sys.(scheduler := if t.active.None? then Scheduler(None, None, false) else Armed(t.active.value, quietDelay, now, false),
           armedAt := now)
  }

  // ---- Invariant ----

  /** Tokens are handed out once: every claimed one, every one in the table and the open one are
      below the next, and the open one has not been claimed. */
  ghost predicate TokensFresh(sys: Sys) {
    && (forall i :: 0 <= i < |sys.claimed| ==> sys.claimed[i].token < sys.tables.nextToken)
    && (forall i, j :: 0 <= i < j < |sys.claimed| ==> sys.claimed[i].token != sys.claimed[j].token)
    && (forall id :: id in sys.tables.batches ==> sys.tables.batches[id] in sys.claimed)
    && (sys.tables.active.Some? ==>
         && sys.tables.active.value.token < sys.tables.nextToken
         && forall i :: 0 <= i < |sys.claimed| ==> sys.claimed[i].token != sys.tables.active.value.token)
  }

  ghost predicate Claimed(claimed: seq<Batch>, g: Generation) {
    exists i :: 0 <= i < |claimed| && g <= claimed[i].generation
  }

  /** Nothing dirty is forgotten, and nothing that was not dirty is published. */
  ghost predicate Accounted(sys: Sys) {
    && (forall g :: g in sys.dirtied ==>
          (sys.tables.active.Some? && g <= sys.tables.active.value.generation) || Claimed(sys.claimed, g))
    && (sys.tables.active.Some? ==> sys.tables.active.value.generation in sys.dirtied)
    && (forall i :: 0 <= i < |sys.claimed| ==> sys.claimed[i].generation in sys.dirtied)
  }

  /** The time by which the window must become a batch. */
  function DueAt(w: Window, quietDelay: Time): Time {
    Min(w.lastDirtyAt + quietDelay, w.openedAt + MAXIMUM_DELAY)
  }

  /** While a window is open both timers carry its token, and the earlier is set for the due time,
      or for the time of arming where that is later; without a window there is no timer. */
  ghost predicate TimersSet(sys: Sys, quietDelay: Time) {
    var q, m := sys.scheduler.quiet, sys.scheduler.maximum;
    if sys.tables.active.None? || sys.scheduler.closed then q.None? && m.None?
    else
      && q.Some? && m.Some?
      && q.value.token == sys.tables.active.value.token && m.value.token == sys.tables.active.value.token
      && Min(q.value.deadline, m.value.deadline) == Max(sys.armedAt, DueAt(sys.tables.active.value, quietDelay))
  }

  ghost predicate Inv(sys: Sys, quietDelay: Time) {
    TokensFresh(sys) && Accounted(sys) && TimersSet(sys, quietDelay)
  }

  lemma ClaimedMore(claimed: seq<Batch>, batch: Batch, g: Generation)
    requires Claimed(claimed, g) || g <= batch.generation
    ensures Claimed(claimed + [batch], g)
  {
    if Claimed(claimed, g) {
      var i :| 0 <= i < |claimed| && g <= claimed[i].generation;
      assert (claimed + [batch])[i] == claimed[i];
    } else {
      assert (claimed + [batch])[|claimed|] == batch;
    }
  }

  lemma MarkFresh(sys: Sys, generation: Generation, now: Time, baseRoot: Option<string>)
    requires TokensFresh(sys)
    ensures TokensFresh(sys.(tables := MarkDirty(sys.tables, generation, now, baseRoot).0))
  {
  }

  /** A timer that fires always finds its window: the claim goes through. */
  lemma FireClaims(sys: Sys, quietDelay: Time, timer: Timer, now: Time)
    requires Inv(sys, quietDelay) && Allowed(sys, Fire(timer, now))
    ensures !sys.scheduler.closed && sys.tables.active.Some? && Claim(sys.tables, timer.token).1.Some?
  {
  }

  lemma FireKeeps(sys: Sys, quietDelay: Time, timer: Timer, now: Time)
    requires Inv(sys, quietDelay) && Allowed(sys, Fire(timer, now))
    ensures Inv(Take(sys, quietDelay, Fire(timer, now)), quietDelay)
  {
    FireClaims(sys, quietDelay, timer, now);
    var next := Take(sys, quietDelay, Fire(timer, now));
    var batch := Claim(sys.tables, timer.token).1.value;
    assert next.claimed == sys.claimed + [batch];
    forall g | g in sys.dirtied ensures Claimed(next.claimed, g) {
      ClaimedMore(sys.claimed, batch, g);
    }
    forall id | id in next.tables.batches ensures next.tables.batches[id] in next.claimed {
    }
  }

  lemma StepKeeps(sys: Sys, quietDelay: Time, step: Step)
    requires Inv(sys, quietDelay) && Allowed(sys, step)
    ensures Inv(Take(sys, quietDelay, step), quietDelay)
  {
    hide Claimed;
    match step
    case Fire(timer, now) => FireKeeps(sys, quietDelay, timer, now);
    case Dirty(generation, now, baseRoot) =>
    case Forget(id) =>
    case Close =>
    case Restart(now) =>
  }

  // ---- Whole runs ----

  ghost predicate Run(sys: Sys, quietDelay: Time, steps: seq<Step>)
    decreases |steps|
  {
    steps == [] || (Allowed(sys, steps[0]) && Run(Take(sys, quietDelay, steps[0]), quietDelay, steps[1..]))
  }

  function End(sys: Sys, quietDelay: Time, steps: seq<Step>): Sys
    decreases |steps|
  {
    if steps == [] then sys else End(Take(sys, quietDelay, steps[0]), quietDelay, steps[1..])
  }

  const EMPTY: Sys := Sys(Tables(1, None, map[], 1), Scheduler(None, None, false), 0, {}, [])

  /** Over every run with restarts: a token yields at most one batch whichever timer fires, every
      dirtied generation is covered by the open window or a claimed batch, and an open window has
      its timers. */
  lemma {:induction false} RunKeeps(sys: Sys, quietDelay: Time, steps: seq<Step>)
    requires Inv(sys, quietDelay) && Run(sys, quietDelay, steps)
    ensures Inv(End(sys, quietDelay, steps), quietDelay)
    ensures sys.claimed <= End(sys, quietDelay, steps).claimed && sys.dirtied <= End(sys, quietDelay, steps).dirtied
    decreases |steps|
  {
    if steps != [] {
      StepKeeps(sys, quietDelay, steps[0]);
      StepGrows(sys, quietDelay, steps[0]);
      hide Inv, Take;
      var next := Take(sys, quietDelay, steps[0]);
      RunKeeps(next, quietDelay, steps[1..]);
      PrefixTrans(sys.claimed, next.claimed, End(next, quietDelay, steps[1..]).claimed);
    }
  }

  lemma StepGrows(sys: Sys, quietDelay: Time, step: Step)
    ensures sys.claimed <= Take(sys, quietDelay, step).claimed && sys.dirtied <= Take(sys, quietDelay, step).dirtied
  {
  }

  lemma PrefixTrans<T>(a: seq<T>, b: seq<T>, c: seq<T>)
    requires a <= b <= c
    ensures a <= c
  {
  }

  // ---- What a window has gathered ----

  datatype Mark = Mark(generation: Generation, now: Time, baseRoot: Option<string>)

  /** The marks since the one that found no window open. */
  ghost function Since(sys: Sys, quietDelay: Time, steps: seq<Step>, before: seq<Mark>): seq<Mark>
    decreases |steps|
  {
    if steps == [] then before
    else
      var next := Take(sys, quietDelay, steps[0]);
      if !steps[0].Dirty? || sys.scheduler.closed then Since(next, quietDelay, steps[1..], before)
      else
        var mark := Mark(steps[0].generation, steps[0].now, steps[0].baseRoot);
        Since(next, quietDelay, steps[1..], if sys.tables.active.None? then [mark] else before + [mark])
  }

  /** The window opened with the first mark, was last dirty with the last one, whose base it has, and
      is for the newest generation of all. */
  ghost predicate Gathers(w: Window, marks: seq<Mark>) {
    && marks != [] && w.openedAt == marks[0].now
    && w.lastDirtyAt == marks[|marks| - 1].now && w.baseRoot == marks[|marks| - 1].baseRoot
    && (forall i :: 0 <= i < |marks| ==> marks[i].generation <= w.generation)
    && exists i :: 0 <= i < |marks| && marks[i].generation == w.generation
  }

  lemma MarkGathers(t: Tables, mark: Mark, before: seq<Mark>)
    requires t.active.Some? ==> Gathers(t.active.value, before)
    ensures Gathers(MarkDirty(t, mark.generation, mark.now, mark.baseRoot).1, if t.active.None? then [mark] else before + [mark])
  {
    var marks := if t.active.None? then [mark] else before + [mark];
    var w := MarkDirty(t, mark.generation, mark.now, mark.baseRoot).1;
    assert marks[|marks| - 1] == mark;
    if t.active.Some? && t.active.value.generation > mark.generation {
      var i :| 0 <= i < |before| && before[i].generation == t.active.value.generation;
      assert marks[i].generation == w.generation;
    }
  }

  /** Over any run an open window tells when it was opened and last marked, and for which generation
      and base; it is due 60 seconds after the mark that opened it at the latest. */
  lemma {:induction false} RunGathers(sys: Sys, quietDelay: Time, steps: seq<Step>, before: seq<Mark>)
    requires sys.tables.active.Some? ==> Gathers(sys.tables.active.value, before)
    ensures var end, marks := End(sys, quietDelay, steps), Since(sys, quietDelay, steps, before);
      end.tables.active.Some? ==>
        && Gathers(end.tables.active.value, marks)
        && DueAt(end.tables.active.value, quietDelay) == Min(marks[|marks| - 1].now + quietDelay, marks[0].now + 60000)
    decreases |steps|
  {
    if steps != [] {
      var step, next := steps[0], Take(sys, quietDelay, steps[0]);
      if step.Dirty? && !sys.scheduler.closed {
        var mark := Mark(step.generation, step.now, step.baseRoot);
        MarkGathers(sys.tables, mark, before);
        hide Gathers;
        RunGathers(next, quietDelay, steps[1..], if sys.tables.active.None? then [mark] else before + [mark]);
      } else {
        hide Gathers;
        RunGathers(next, quietDelay, steps[1..], before);
      }
    }
  }

  lemma OneBatchPerToken(quietDelay: Time, steps: seq<Step>)
    requires Run(EMPTY, quietDelay, steps)
    ensures var sys := End(EMPTY, quietDelay, steps);
      && (forall i, j :: 0 <= i < |sys.claimed| && 0 <= j < |sys.claimed| && sys.claimed[i].token == sys.claimed[j].token ==> i == j)
      && (forall g :: g in sys.dirtied ==>
            (sys.tables.active.Some? && g <= sys.tables.active.value.generation) || exists i :: 0 <= i < |sys.claimed| && g <= sys.claimed[i].generation)
  {
    assert Inv(EMPTY, quietDelay);
    RunKeeps(EMPTY, quietDelay, steps);
    hide Inv, End, Run;
    var sys := End(EMPTY, quietDelay, steps);
    assert Inv(sys, quietDelay) && TokensFresh(sys) && Accounted(sys) by { InvParts(sys, quietDelay); }
    forall g | g in sys.dirtied && !(sys.tables.active.Some? && g <= sys.tables.active.value.generation)
      ensures exists i :: 0 <= i < |sys.claimed| && g <= sys.claimed[i].generation
    {
      assert Claimed(sys.claimed, g);
    }
  }

  lemma InvParts(sys: Sys, quietDelay: Time)
    requires Inv(sys, quietDelay)
    ensures TokensFresh(sys) && Accounted(sys)
  {
  }

  /** Once the due time has come some timer may fire, and firing closes the window with a batch of
      its token and generation. */
  lemma DueWindowIsClaimed(sys: Sys, quietDelay: Time, now: Time) returns (timer: Timer)
    requires Inv(sys, quietDelay) && sys.tables.active.Some? && !sys.scheduler.closed
    requires sys.armedAt <= now && DueAt(sys.tables.active.value, quietDelay) <= now
    ensures Allowed(sys, Fire(timer, now))
    ensures var next, w := Take(sys, quietDelay, Fire(timer, now)), sys.tables.active.value;
      && next.tables.active.None? && next.claimed == sys.claimed + [Batch(sys.tables.nextId, w.token, w.generation, w.baseRoot)]
  {
    var q, m := sys.scheduler.quiet.value, sys.scheduler.maximum.value;
    timer := if q.deadline <= m.deadline then q else m;
    FireClaims(sys, quietDelay, timer, now);
  }
}
