/** What eviction goes by: when each blob was last used, and what may be evicted at all. */
module BlobRecency {
  import opened Manifests
  import opened LeaseCounts
  import opened BlobModel
  import opened BlobInvariant
  import opened BlobEviction
  import opened BlobRuns

  /** A reader asked for this hash at `now` and got it. */
  ghost predicate Reads(s: State, step: Step, h: Hash, now: int) {
    step.Lease? && step.hash == h && step.now == now && Ready(s, h)
  }

  /** Bytes were admitted under this hash at `now`: there was no row, or one of that size. */
  ghost predicate Admits(s: State, step: Step, h: Hash, now: int) {
    step.Admit? && step.hash == h && step.now == now && (h in s.catalog ==> s.catalog[h].size == step.size)
  }

  /** When the step uses this hash. */
  ghost function UsedAt(s: State, step: Step, h: Hash): Option<int> {
    if step.Lease? && Reads(s, step, h, step.now) then Some(step.now)
    else if step.Admit? && Admits(s, step, h, step.now) then Some(step.now)
    else None
  }

  /** A read sets the date of the row and leaves all else, and all other rows, as they are. */
  lemma LookupMeaning(s: State, h: Hash, now: int)
    ensures var (t, ok) := Lookup(s, h, now);
      && (ok <==> h in s.catalog && s.catalog[h].ready)
      && (ok ==> h in t.catalog && t.catalog[h].lastAccessed == now && t.catalog[h].ready
                 && t.catalog[h].size == s.catalog[h].size && t.catalog[h].origin == s.catalog[h].origin)
      && (ok ==> h in t.leases && t.leases[h] == 1 + if h in s.leases then s.leases[h] else 0)
      && t.catalog.Keys == s.catalog.Keys && (forall g :: g in s.catalog && g != h ==> t.catalog[g] == s.catalog[g])
      && (forall g :: g != h ==> (g in t.leases <==> g in s.leases) && (g in s.leases ==> t.leases[g] == s.leases[g]))
      && t.owners == s.owners && t.reservations == s.reservations && t.routes == s.routes && (!ok ==> t == s)
  {
  }

  /** An admission leaves a ready row of that size and date; it came from both sides where an earlier
      row came from another one.  Nothing else changes but the owner and the reservation. */
  lemma PromoteMeaning(s: State, token: Token, h: Hash, size: nat, origin: Origin, owner: Option<Owner>, now: int)
    ensures var (t, ok) := Promote(s, token, h, size, origin, owner, now);
      && (ok <==> (h in s.catalog ==> s.catalog[h].size == size))
      && (ok ==> h in t.catalog && t.catalog[h].size == size && t.catalog[h].ready && t.catalog[h].lastAccessed == now)
      && (ok && (h !in s.catalog || s.catalog[h].origin == origin) ==> t.catalog[h].origin == origin)
      && (ok && h in s.catalog && s.catalog[h].origin != origin ==> t.catalog[h].origin == Mixed)
      && (forall g :: g != h ==> (g in t.catalog <==> g in s.catalog) && (g in s.catalog ==> t.catalog[g] == s.catalog[g]))
      && (ok ==> forall o, g :: (o, g) in t.owners <==> (o, g) in s.owners || (owner == Some(o) && g == h))
      && (ok ==> t.reservations == s.reservations - {token}) && t.leases == s.leases && t.routes == s.routes && (!ok ==> t == s)
  {
  }

  /** A step that uses a hash dates its row; any other leaves a row that stays ready as it is. */
  lemma StepRow(sys: Sys, step: Step, h: Hash)
    requires Safe(sys) && Allowed(sys, step) && Ready(Take(sys, step).store, h)
    ensures var row := Take(sys, step).store.catalog[h];
      if UsedAt(sys.store, step, h).Some? then row.lastAccessed == UsedAt(sys.store, step, h).value
      else Ready(sys.store, h) && row == sys.store.catalog[h]
  {
    hide Used, Valid;
    var s := sys.store;
    match step
    case TakeSpace(token, bytes, order, stuck) =>
      if bytes <= s.capacity { var k := ReserveEvicts(s, token, bytes, order, stuck); }
      hide Reserve;
    case GiveBack(token) =>
    case Admit(token, g, size, origin, owner, now) =>
    case Lease(id, g, now) =>
    case Unlease(id, stuck) =>
      DeleteIfUnownedWriteTrims(DropLease(s, sys.held[id]), sys.held[id], stuck);
      hide DeleteIfUnownedWrite;
    case Acquire(owner, g) =>
    case Transfer(src, dst, swept, stuck) =>
      DeleteEachTrims(s.(owners := Transferred(s.owners, src, dst)), swept, stuck);
    case TransferSome(src, dst, listed, swept, stuck) =>
      DeleteEachTrims(s.(owners := TransferredEach(s.owners, src, dst, listed)), swept, stuck);
    case Reopen =>
    case ReleaseAll(owner, hashes, stuck) =>
      DeleteEachTrims(s.(owners := Disowned(s.owners, owner)), hashes, stuck);
    case ReleaseOne(owner, g, stuck) =>
      DeleteIfUnownedWriteTrims(s.(owners := s.owners - {(owner, g)}), g, stuck);
      hide DeleteIfUnownedWrite;
    case Commit(route, parts, upload, hashes, stuck) =>
      DeleteEachTrims(s.(owners := Disowned(s.owners, upload)), hashes, stuck);
  }

  /** When the run last used this hash. */
  ghost function LastUse(sys: Sys, steps: seq<Step>, h: Hash): Option<int>
    requires Run(sys, steps)
    decreases |steps|
  {
    if steps == [] then None
    else
      var later := LastUse(Take(sys, steps[0]), steps[1..], h);
      if later.Some? then later else UsedAt(sys.store, steps[0], h)
  }

  /** Over any run: a ready row is dated by the last admission or read of its hash, or as at the
      beginning where there was none. */
  lemma {:induction false} RunRecency(sys: Sys, steps: seq<Step>, h: Hash)
    requires Safe(sys) && Run(sys, steps) && Ready(End(sys, steps).store, h)
    ensures var row, last := End(sys, steps).store.catalog[h], LastUse(sys, steps, h);
      if last.Some? then row.lastAccessed == last.value else Ready(sys.store, h) && row == sys.store.catalog[h]
    decreases |steps|
  {
    if steps != [] {
      hide Safe, Take, Ready, UsedAt;
      StepSafe(sys, steps[0]);
      RunRecency(Take(sys, steps[0]), steps[1..], h);
      if LastUse(Take(sys, steps[0]), steps[1..], h).None? {
        StepRow(sys, steps[0], h);
      }
    }
  }

  /** So of two blobs used in a run, the one used longer ago is considered for eviction first. */
  lemma LongestUnusedFirst(sys: Sys, steps: seq<Step>, order: seq<Hash>, i: nat, j: nat)
    requires Safe(sys) && Run(sys, steps) && EvictionOrder(End(sys, steps).store, order) && i < j < |order|
    requires LastUse(sys, steps, order[i]).Some? && LastUse(sys, steps, order[j]).Some?
    ensures LastUse(sys, steps, order[i]).value <= LastUse(sys, steps, order[j]).value
  {
    hide Safe, Run, End, LastUse;
    RunRecency(sys, steps, order[i]);
    RunRecency(sys, steps, order[j]);
  }

  /** What an eviction may take: a blob that is there, came from outside at least once, belongs to
      nobody and is not being read. */
  ghost predicate Evictable(s: State, h: Hash) {
    && h in s.catalog && s.catalog[h].ready && (s.catalog[h].origin == Remote || s.catalog[h].origin == Mixed)
    && h !in s.leases && forall o :: (o, h) !in s.owners
  }

  /** The loop deletes from exactly those. */
  lemma VictimsAre(s: State, order: seq<Hash>, h: Hash)
    requires EvictionOrder(s, order)
    ensures h in Victims(s.leases, order) <==> Evictable(s, h)
  {
    forall o | (o, h) in s.owners ensures Owned(s.owners, h) {
      var p := (o, h);
      assert p in s.owners && p.1 == h;
    }
    if Candidate(s, h) {
      assert Among(order, h);
    }
  }
}
