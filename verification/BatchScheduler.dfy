/** The batch scheduler over the repository's clock row and batch table. */
module BatchScheduler {
  import opened Manifests
  import M = BatchWindow
  import opened BatchWindow

  class PublicationClock {
    var nextToken: Token
    var active: Option<Window>
    var batches: map<nat, Batch>
    var nextId: nat

    function Rows(): Tables
      reads this
    {
      Tables(nextToken, active, batches, nextId)
    }

    constructor ()
      ensures Rows() == EMPTY.tables
    {
      nextToken, active, batches, nextId := 1, None, map[], 1;
    }

    method MarkDirty(generation: Generation, now: Time, baseRoot: Option<string>) returns (w: Window)
      modifies this
      ensures (Rows(), w) == M.MarkDirty(old(Rows()), generation, now, baseRoot)
      ensures generation <= w.generation
      ensures forall sys: Sys :: sys.tables == old(Rows()) && TokensFresh(sys) ==> TokensFresh(sys.(tables := Rows()))
    {
      var token := if active.Some? then active.value.token else nextToken;
      var openedAt := if active.Some? then active.value.openedAt else now;
      var newest := if active.Some? then Max(generation, active.value.generation) else generation;
      if active.None? {
        nextToken := token + 1;
      }
      w := Window(token, newest, openedAt, now, baseRoot);
      active := Some(w);
      forall sys: Sys | sys.tables == old(Rows()) && TokensFresh(sys) ensures TokensFresh(sys.(tables := Rows())) {
        MarkFresh(sys, generation, now, baseRoot);
      }
    }

    method Claim(token: Token) returns (r: Option<Batch>)
      modifies this
      ensures (Rows(), r) == M.Claim(old(Rows()), token)
      ensures r.Some? ==> active.None? && r.value.token == token && forall id :: id in old(batches) ==> old(batches)[id].token != token
    {
      if active.None? || active.value.token != token {
        return None;
      }
      var rest := batches.Keys;
      while rest != {}
        invariant rest <= batches.Keys
        invariant forall id :: id in batches && id !in rest ==> batches[id].token != token
        decreases |rest|
      {
        var id :| id in rest;
        if batches[id].token == token {
          return None;
        }
        rest := rest - {id};
      }
      var batch := Batch(nextId, token, active.value.generation, active.value.baseRoot);
      batches, nextId, active := batches[nextId := batch], nextId + 1, None;
      r := Some(batch);
    }
  }

  class PublicationBatchScheduler {
    const repository: PublicationClock
    const quietDelay: Time
    var quiet: Option<Timer>
    var maximum: Option<Timer>
    var closed: bool

    function Fields(): Scheduler
      reads this
    {
      Scheduler(quiet, maximum, closed)
    }

    /** A new process takes over the window it finds open. */
    constructor (repository: PublicationClock, quietDelay: Time, now: Time)
      ensures this.repository == repository && this.quietDelay == quietDelay
      ensures forall sys: Sys :: sys.tables == repository.Rows() ==>
                Fields() == Take(sys, quietDelay, Restart(now)).scheduler && Take(sys, quietDelay, Restart(now)).tables == repository.Rows()
      ensures forall sys: Sys :: sys.tables == repository.Rows() && Inv(sys, quietDelay) ==>
                Inv(sys.(scheduler := Fields(), armedAt := now), quietDelay)
    {
      this.repository, this.quietDelay := repository, quietDelay;
      quiet, maximum, closed := None, None, false;
      new;
      if repository.active.Some? {
        Arm(repository.active.value, now);
      }
      forall sys: Sys | sys.tables == repository.Rows() && Inv(sys, quietDelay)
        ensures Inv(sys.(scheduler := Fields(), armedAt := now), quietDelay)
      {
        StepKeeps(sys, quietDelay, Restart(now));
      }
    }

    method Arm(w: Window, now: Time)
      modifies this`quiet, this`maximum
      ensures Fields() == Armed(w, quietDelay, now, closed)
    {
      quiet := Some(Timer(w.token, now + Max(0, w.lastDirtyAt + quietDelay - now)));
      maximum := Some(Timer(w.token, now + Max(0, w.openedAt + MAXIMUM_DELAY - now)));
    }

    method Dirty(generation: Generation, now: Time, baseRoot: Option<string>)
      modifies this, repository
      ensures forall sys: Sys :: sys.tables == old(repository.Rows()) && sys.scheduler == old(Fields()) ==>
                var next := Take(sys, quietDelay, Step.Dirty(generation, now, baseRoot));
                next.tables == repository.Rows() && next.scheduler == Fields() && (Inv(sys, quietDelay) ==> Inv(next, quietDelay))
    {
      forall sys: Sys | Inv(sys, quietDelay) ensures Inv(Take(sys, quietDelay, Step.Dirty(generation, now, baseRoot)), quietDelay) {
        StepKeeps(sys, quietDelay, Step.Dirty(generation, now, baseRoot));
      }
      hide Inv;
      if closed {
        return;
      }
      var w := repository.MarkDirty(generation, now, baseRoot);
      Arm(w, now);
    }

    /** The callback of either timer: both are disarmed before the claim. */
    method Fire(timer: Timer, now: Time) returns (r: Option<Batch>)
      modifies this, repository
      ensures forall sys: Sys :: sys.tables == old(repository.Rows()) && sys.scheduler == old(Fields()) ==>
                var next := Take(sys, quietDelay, Step.Fire(timer, now));
                && next.tables == repository.Rows() && next.scheduler == Fields()
                && next.claimed == (if r.Some? then sys.claimed + [r.value] else sys.claimed)
                && (Inv(sys, quietDelay) && Allowed(sys, Step.Fire(timer, now)) ==> Inv(next, quietDelay) && r.Some?)
    {
      forall sys: Sys | Inv(sys, quietDelay) && Allowed(sys, Step.Fire(timer, now))
        ensures Inv(Take(sys, quietDelay, Step.Fire(timer, now)), quietDelay)
        ensures !sys.scheduler.closed && M.Claim(sys.tables, timer.token).1.Some?
      {
        StepKeeps(sys, quietDelay, Step.Fire(timer, now));
        FireClaims(sys, quietDelay, timer, now);
      }
      hide Inv;
      if closed {
        return None;
      }
      quiet, maximum := None, None;
      r := repository.Claim(timer.token);
    }

    method Close()
      modifies this
      ensures forall sys: Sys :: sys.tables == repository.Rows() && sys.scheduler == old(Fields()) ==>
                Take(sys, quietDelay, Step.Close).scheduler == Fields()
    {
      closed, quiet, maximum := true, None, None;
    }
  }
}
