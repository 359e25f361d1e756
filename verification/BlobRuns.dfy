/** Every interleaving of reservations, admissions, leases and owner changes. */
module BlobRuns {
  import opened Manifests
  import opened LeaseCounts
  import opened BlobModel
  import opened BlobInvariant
  import opened BlobEviction

  /** The store together with the leases handed out and not yet released. */
  datatype Sys = Sys(store: State, held: map<HandleId, Hash>)

  /** What runs between two suspension points. An admission is a reservation, then a promotion or
      a release of its token. `stuck` are the files that cannot be removed at that moment. */
  datatype Step =
    | TakeSpace(token: Token, bytes: nat, order: seq<Hash>, stuck: set<Hash>)
    | GiveBack(token: Token)
    | Admit(token: Token, hash: Hash, size: nat, origin: Origin, admittedFor: Option<Owner>, now: int)
    | Lease(id: HandleId, hash: Hash, now: int)
    | Unlease(id: HandleId, stuck: set<Hash>)
    | Acquire(owner: Owner, hash: Hash)
    | Transfer(src: Owner, dst: Owner, swept: seq<Hash>, stuck: set<Hash>)
    | TransferSome(src: Owner, dst: Owner, listed: seq<Hash>, swept: seq<Hash>, stuck: set<Hash>)
    | ReleaseAll(owner: Owner, hashes: seq<Hash>, stuck: set<Hash>)
    | ReleaseOne(owner: Owner, hash: Hash, stuck: set<Hash>)
    | Commit(route: string, parts: seq<Part>, upload: Owner, hashes: seq<Hash>, stuck: set<Hash>)
    | Reopen

  /** What the code itself guarantees about a step: new tokens are unused, queries answer from the
      tables, a lease object passes on its first release only, and an admission has counted its
      bytes against its own reservation. */
  ghost predicate Allowed(sys: Sys, step: Step) {
    match step
    case TakeSpace(token, _, order, _) => token !in sys.store.reservations && EvictionOrder(sys.store, order)
    case Admit(token, _, size, _, _, _) => token in sys.store.reservations && size <= sys.store.reservations[token]
    case Lease(id, _, _) => id !in sys.held
    case Unlease(id, _) => id in sys.held
    case ReleaseAll(owner, hashes, _) => OwnedList(sys.store, owner, hashes)
    case Commit(_, _, upload, hashes, _) => OwnedList(sys.store, upload, hashes)
    case _ => true
  }

  ghost function Take(sys: Sys, step: Step): Sys
    requires Allowed(sys, step)
  {
    match step
    case TakeSpace(token, bytes, order, stuck) => sys.(store := Reserve(sys.store, token, bytes, order, stuck).0)
    case GiveBack(token) => sys.(store := ReleaseReservation(sys.store, token))
    case Admit(token, h, size, origin, owner, now) => sys.(store := Promote(sys.store, token, h, size, origin, owner, now).0)
    case Lease(id, h, now) =>
      if Ready(sys.store, h) then Sys(Lookup(sys.store, h, now).0, sys.held[id := h]) else sys
    case Unlease(id, stuck) => Sys(ReleaseLease(sys.store, sys.held[id], stuck), sys.held - {id})
    case Acquire(owner, h) => sys.(store := AcquireOwner(sys.store, owner, h).0)
    case Transfer(src, dst, swept, stuck) => sys.(store := TransferOwner(sys.store, src, dst, swept, stuck))
    case TransferSome(src, dst, listed, swept, stuck) => sys.(store := TransferListed(sys.store, src, dst, listed, swept, stuck))
    case ReleaseAll(owner, hashes, stuck) => sys.(store := ReleaseOwner(sys.store, owner, hashes, stuck))
    case ReleaseOne(owner, h, stuck) => sys.(store := ReleaseOwnerOf(sys.store, owner, h, stuck))
    case Commit(route, parts, upload, hashes, stuck) => sys.(store := CommitRoute(sys.store, route, parts, upload, hashes, stuck).0)
    case Reopen => Sys(Restart(sys.store), map[])
  }

  ghost predicate Run(sys: Sys, steps: seq<Step>)
    decreases |steps|
  {
    steps == [] || (Allowed(sys, steps[0]) && Run(Take(sys, steps[0]), steps[1..]))
  }

  ghost function End(sys: Sys, steps: seq<Step>): Sys
    requires Run(sys, steps)
    decreases |steps|
  {
    if steps == [] then sys else End(Take(sys, steps[0]), steps[1..])
  }

  ghost predicate Safe(sys: Sys) {
    Valid(sys.store) && Counted(sys.store.leases, sys.held)
  }

  lemma HeldIsReady(sys: Sys, id: HandleId)
    requires Safe(sys) && id in sys.held
    ensures Ready(sys.store, sys.held[id])
  {
    HeldIsCounted(sys.store.leases, sys.held, id);
  }

  // ---- One step ----

  lemma StepSafe(sys: Sys, step: Step)
    requires Safe(sys) && Allowed(sys, step)
    ensures Safe(Take(sys, step))
  {
    hide Used, Valid, Counted;
    var s := sys.store;
    match step
    case TakeSpace(token, bytes, order, stuck) => ReserveKeeps(s, token, bytes, order, stuck); LeasesAfterReserve(s, token, bytes, order, stuck);
    case GiveBack(token) => GiveBackKeeps(s, token);
    case Admit(token, h, size, origin, owner, now) => PromoteKeeps(s, token, h, size, origin, owner, now);
    case Lease(id, h, now) => LookupKeeps(s, h, now); if Ready(s, h) { TakeCounted(s.leases, sys.held, id, h); }
    case Unlease(id, stuck) => ReleaseLeaseKeeps(s, sys.held[id], stuck); DropCounted(s.leases, sys.held, id); LeasesAfterRelease(s, sys.held[id], stuck);
    case Acquire(owner, h) => AcquireKeeps(s, owner, h);
    case Transfer(src, dst, swept, stuck) =>
      TransferOwnerValid(s, src, dst, swept, stuck);
      DeleteEachTrims(s.(owners := Transferred(s.owners, src, dst)), swept, stuck);
    case TransferSome(src, dst, listed, swept, stuck) =>
      TransferListedKeeps(s, src, dst, listed, swept, stuck);
      DeleteEachTrims(s.(owners := TransferredEach(s.owners, src, dst, listed)), swept, stuck);
    case ReleaseAll(owner, hashes, stuck) =>
      ReleaseOwnerKeeps(s, owner, hashes, stuck);
      DeleteEachTrims(s.(owners := Disowned(s.owners, owner)), hashes, stuck);
    case ReleaseOne(owner, h, stuck) =>
      ReleaseOwnerOfKeeps(s, owner, h, stuck);
      DeleteIfUnownedWriteTrims(s.(owners := s.owners - {(owner, h)}), h, stuck);
    case Commit(route, parts, upload, hashes, stuck) =>
      CommitRouteKeeps(s, route, parts, upload, hashes, stuck);
      DeleteEachTrims(s.(owners := Disowned(s.owners, upload)), hashes, stuck);
    case Reopen => RestartValid(s); NoneCounted();
  }

  lemma NoneCounted()
    ensures var counts: map<Hash, nat> := map[]; var held: map<HandleId, Hash> := map[]; Counted(counts, held)
  {
    var held: map<HandleId, Hash> := map[];
    assert forall h :: Holders(held, h) == {};
  }

  lemma LeasesAfterReserve(s: State, token: Token, bytes: nat, order: seq<Hash>, stuck: set<Hash>)
    requires EvictionOrder(s, order)
    ensures Reserve(s, token, bytes, order, stuck).0.leases == s.leases
    ensures Reserve(s, token, bytes, order, stuck).0.owners == s.owners
    ensures Reserve(s, token, bytes, order, stuck).0.routes == s.routes
  {
    if bytes <= s.capacity {
      var k := ReserveEvicts(s, token, bytes, order, stuck);
    }
  }

  lemma LeasesAfterRelease(s: State, h: Hash, stuck: set<Hash>)
    ensures ReleaseLease(s, h, stuck).leases == Dropped(s.leases, h)
  {
    DeleteIfUnownedWriteTrims(DropLease(s, h), h, stuck);
  }

  lemma GiveBackKeeps(s: State, token: Token)
    requires Valid(s)
    ensures Valid(ReleaseReservation(s, token))
  {
    if token in s.reservations {
      Sums.SumRemove(s.reservations, token);
    } else {
      assert s.reservations - {token} == s.reservations;
    }
  }

  lemma AcquireKeeps(s: State, owner: Owner, h: Hash)
    requires Valid(s)
    ensures Valid(AcquireOwner(s, owner, h).0)
    ensures Accounted(s) ==> Accounted(AcquireOwner(s, owner, h).0)
  {
    var t := AcquireOwner(s, owner, h).0;
    assert ReadyBytes(t) == ReadyBytes(s);
    hide ReadyBytes;
    forall g | Owned(s.owners, g) ensures Owned(t.owners, g) {
      var p :| p in s.owners && p.1 == g;
      OwnedBy(t.owners, p);
    }
  }

  // ---- Write blobs are accounted for ----

  /** Writes are admitted with an owner, ownership moves between distinct owners, a new route takes
      over everything its upload wrote, and a process ends with no write blob held by readers alone. */
  ghost predicate Tidy(s: State, step: Step) {
    match step
    case Admit(_, _, _, origin, owner, _) => origin == Write ==> owner.Some?
    case Transfer(src, dst, _, _) => src != dst
    case TransferSome(src, dst, _, _, _) => src != dst
    case Reopen => forall h :: Ready(s, h) && s.catalog[h].origin == Write && h in s.leases ==> Owned(s.owners, h)
    case Commit(route, parts, upload, _, _) => upload != RouteOwner(route) && NothingLeftOver(s, parts, upload)
    case _ => true
  }

  lemma StepAccounted(sys: Sys, step: Step)
    requires Safe(sys) && Allowed(sys, step) && Accounted(sys.store) && Tidy(sys.store, step)
    ensures Accounted(Take(sys, step).store)
  {
    hide Used, Valid, Accounted;
    var s := sys.store;
    match step
    case TakeSpace(token, bytes, order, stuck) => ReserveKeeps(s, token, bytes, order, stuck);
    case GiveBack(token) => SameRows(s, ReleaseReservation(s, token));
    case Admit(token, h, size, origin, owner, now) => PromoteKeeps(s, token, h, size, origin, owner, now);
    case Lease(id, h, now) => LookupKeeps(s, h, now);
    case Unlease(id, stuck) => ReleaseLeaseKeeps(s, sys.held[id], stuck);
    case Acquire(owner, h) => AcquireKeeps(s, owner, h);
    case Transfer(src, dst, swept, stuck) => TransferOwnerKeeps(s, src, dst, swept, stuck);
    case TransferSome(src, dst, listed, swept, stuck) => TransferListedKeeps(s, src, dst, listed, swept, stuck);
    case Reopen => RestartAccountedIff(s);
    case ReleaseAll(owner, hashes, stuck) => ReleaseOwnerKeeps(s, owner, hashes, stuck);
    case ReleaseOne(owner, h, stuck) => ReleaseOwnerOfKeeps(s, owner, h, stuck);
    case Commit(route, parts, upload, hashes, stuck) =>
      ReleaseOwnerKeeps(s, upload, hashes, stuck);
      if route !in s.routes && (forall i :: 0 <= i < |parts| ==> (upload, parts[i].hash) in s.owners) {
        CommitRouteAccountedIff(s, route, parts, upload, hashes, stuck);
      }
  }

  lemma SameRows(s: State, t: State)
    requires t == s.(reservations := t.reservations)
    ensures Accounted(s) ==> Accounted(t)
  {
  }

  // ---- Owner rows stay until they are given up ----

  /** The step takes this hash from this owner: a transfer from it, a release, or a commit of its
      upload that goes through. */
  ghost predicate GivesUp(s: State, step: Step, o: Owner, h: Hash) {
    match step
    case Transfer(src, _, _, _) => src == o
    case TransferSome(src, _, listed, _, _) => src == o && h in listed
    case ReleaseAll(owner, _, _) => owner == o
    case ReleaseOne(owner, g, _) => owner == o && g == h
    case Commit(route, parts, upload, hashes, stuck) => upload == o && CommitRoute(s, route, parts, upload, hashes, stuck).1
    case _ => false
  }

  /** No deletion takes an owner's row along: it goes exactly when it is given up. */
  lemma StepOwned(sys: Sys, step: Step, o: Owner, h: Hash)
    requires Safe(sys) && Allowed(sys, step) && (o, h) in sys.store.owners
    ensures (o, h) in Take(sys, step).store.owners <==> !GivesUp(sys.store, step, o, h)
  {
    hide Used, Valid;
    var s := sys.store;
    match step
    case TakeSpace(token, bytes, order, stuck) => LeasesAfterReserve(s, token, bytes, order, stuck);
    case GiveBack(token) =>
    case Admit(token, g, size, origin, owner, now) =>
    case Lease(id, g, now) =>
    case Unlease(id, stuck) =>
      DeleteIfUnownedWriteTrims(DropLease(s, sys.held[id]), sys.held[id], stuck);
      hide DeleteIfUnownedWrite;
    case Acquire(owner, g) =>
    case Transfer(src, dst, swept, stuck) =>
      DeleteEachTrims(s.(owners := Transferred(s.owners, src, dst)), swept, stuck);
    case TransferSome(src, dst, listed, swept, stuck) =>
      TransferEachRow(s.owners, src, dst, listed, o, h);
      hide TransferredEach;
      DeleteEachTrims(s.(owners := TransferredEach(s.owners, src, dst, listed)), swept, stuck);
    case Reopen =>
    case ReleaseAll(owner, hashes, stuck) =>
      DeleteEachTrims(s.(owners := Disowned(s.owners, owner)), hashes, stuck);
    case ReleaseOne(owner, g, stuck) =>
      DeleteIfUnownedWriteTrims(s.(owners := s.owners - {(owner, g)}), g, stuck);
      hide DeleteIfUnownedWrite;
    case Commit(route, parts, upload, hashes, stuck) =>
      DeleteEachTrims(s.(owners := Disowned(s.owners, upload)), hashes, stuck);
  }

  /** A transfer takes exactly the listed rows of its source. */
  lemma {:induction false} TransferEachRow(owners: set<(Owner, Hash)>, src: Owner, dst: Owner, hashes: seq<Hash>, o: Owner, h: Hash)
    requires (o, h) in owners
    ensures (o, h) in TransferredEach(owners, src, dst, hashes) <==> !(o == src && h in hashes)
    decreases |hashes|
  {
    if hashes != [] {
      var g := hashes[0];
      var next := (if (src, g) in owners then owners + {(dst, g)} else owners) - {(src, g)};
      assert hashes == [g] + hashes[1..];
      if (o, h) in next {
        TransferEachRow(next, src, dst, hashes[1..], o, h);
      } else {
        SourceGone(next, src, dst, hashes[1..], h);
      }
    }
  }

  /** What the source does not own it is not given, and what is listed it loses. */
  lemma {:induction false} SourceGone(owners: set<(Owner, Hash)>, src: Owner, dst: Owner, hashes: seq<Hash>, h: Hash)
    requires (src, h) !in owners
    ensures (src, h) !in TransferredEach(owners, src, dst, hashes)
    decreases |hashes|
  {
    if hashes != [] {
      var g := hashes[0];
      SourceGone((if (src, g) in owners then owners + {(dst, g)} else owners) - {(src, g)}, src, dst, hashes[1..], h);
    }
  }

  ghost predicate NobodyGivesUp(sys: Sys, steps: seq<Step>, o: Owner, h: Hash)
    requires Run(sys, steps)
    decreases |steps|
  {
    steps == [] || (!GivesUp(sys.store, steps[0], o, h) && NobodyGivesUp(Take(sys, steps[0]), steps[1..], o, h))
  }

  /** Over any run: what an owner holds stays with it, and stays ready, until a step gives it up. */
  lemma {:induction false} RunOwned(sys: Sys, steps: seq<Step>, o: Owner, h: Hash)
    requires Safe(sys) && Run(sys, steps) && (o, h) in sys.store.owners && NobodyGivesUp(sys, steps, o, h)
    ensures (o, h) in End(sys, steps).store.owners && Ready(End(sys, steps).store, h)
    decreases |steps|
  {
    hide Used;
    if steps == [] {
      var p := (o, h);
      assert p in sys.store.owners;
    } else {
      hide Safe, Take;
      StepSafe(sys, steps[0]);
      StepOwned(sys, steps[0], o, h);
      RunOwned(Take(sys, steps[0]), steps[1..], o, h);
    }
  }

  // ---- Routes stay readable ----

  ghost predicate NotRoute(owner: Owner) {
    forall r :: owner != RouteOwner(r)
  }

  /** Nobody gives up what belongs to a route. */
  ghost predicate SparesRoutes(step: Step) {
    match step
    case Transfer(src, _, _, _) => NotRoute(src)
    case TransferSome(src, _, _, _, _) => NotRoute(src)
    case ReleaseAll(owner, _, _) => NotRoute(owner)
    case ReleaseOne(owner, _, _) => NotRoute(owner)
    case Commit(_, _, upload, _, _) => NotRoute(upload)
    case _ => true
  }

  /** Each component of a committed route is ready. */
  ghost predicate RoutesReadable(s: State) {
    forall r, i :: r in s.routes && 0 <= i < |s.routes[r]| ==> Ready(s, s.routes[r][i].hash)
  }

  lemma StepRoutes(sys: Sys, step: Step)
    requires Safe(sys) && Allowed(sys, step) && RoutesHeld(sys.store) && SparesRoutes(step)
    ensures RoutesHeld(Take(sys, step).store)
    ensures forall r :: r in sys.store.routes && sys.store.routes[r] != [] ==>
              r in Take(sys, step).store.routes && Take(sys, step).store.routes[r] == sys.store.routes[r]
  {
    hide Used, Valid;
    var s := sys.store;
    match step
    case TakeSpace(token, bytes, order, stuck) => ReserveKeeps(s, token, bytes, order, stuck); LeasesAfterReserve(s, token, bytes, order, stuck);
    case GiveBack(token) =>
    case Admit(token, h, size, origin, owner, now) => PromoteKeeps(s, token, h, size, origin, owner, now);
    case Lease(id, h, now) =>
    case Unlease(id, stuck) =>
      DeleteIfUnownedWriteTrims(DropLease(s, sys.held[id]), sys.held[id], stuck);
      hide DeleteIfUnownedWrite;
    case Acquire(owner, h) =>
    case Transfer(src, dst, swept, stuck) =>
      DeleteEachTrims(s.(owners := Transferred(s.owners, src, dst)), swept, stuck);
    case TransferSome(src, dst, listed, swept, stuck) =>
      TransferEachSpares(s.owners, src, dst, listed);
      hide TransferredEach;
      DeleteEachTrims(s.(owners := TransferredEach(s.owners, src, dst, listed)), swept, stuck);
    case Reopen =>
    case ReleaseAll(owner, hashes, stuck) =>
      DeleteEachTrims(s.(owners := Disowned(s.owners, owner)), hashes, stuck);
    case ReleaseOne(owner, h, stuck) =>
      DeleteIfUnownedWriteTrims(s.(owners := s.owners - {(owner, h)}), h, stuck);
      hide DeleteIfUnownedWrite;
    case Commit(route, parts, upload, hashes, stuck) =>
      DeleteEachTrims(s.(owners := Disowned(s.owners, upload)), hashes, stuck);
  }

  /** A transfer keeps the rows of every owner but its source. */
  lemma TransferEachSpares(owners: set<(Owner, Hash)>, src: Owner, dst: Owner, hashes: seq<Hash>)
    ensures forall o, h :: (o, h) in owners && o != src ==> (o, h) in TransferredEach(owners, src, dst, hashes)
  {
    forall o, h | (o, h) in owners && o != src ensures (o, h) in TransferredEach(owners, src, dst, hashes) {
      TransferEachRow(owners, src, dst, hashes, o, h);
    }
  }

  lemma HeldRoutesReadable(s: State)
    requires Valid(s) && RoutesHeld(s)
    ensures RoutesReadable(s)
  {
    hide Used;
    forall r, i | r in s.routes && 0 <= i < |s.routes[r]| ensures Ready(s, s.routes[r][i].hash) {
      var p := (RouteOwner(r), s.routes[r][i].hash);
      assert p in s.owners;
    }
  }

  // ---- Whole runs ----

  ghost predicate AllTidy(sys: Sys, steps: seq<Step>)
    requires Run(sys, steps)
    decreases |steps|
  {
    steps == [] || (Tidy(sys.store, steps[0]) && AllTidy(Take(sys, steps[0]), steps[1..]))
  }

  ghost predicate AllSpareRoutes(steps: seq<Step>) {
    forall i :: 0 <= i < |steps| ==> SparesRoutes(steps[i])
  }

  /** However the steps interleave, restarts included as far as they forget leases and reservations:
      ready and reserved bytes stay within the capacity, and what is owned or leased is ready. */
  lemma {:induction false} RunSafe(sys: Sys, steps: seq<Step>)
    requires Safe(sys) && Run(sys, steps)
    ensures var s := End(sys, steps).store;
      && ReadyBytes(s) + Sums.SumOf(s.reservations) <= s.capacity
      && (forall o, h :: (o, h) in s.owners ==> Ready(s, h))
      && (forall id :: id in End(sys, steps).held ==> Ready(s, End(sys, steps).held[id]))
    decreases |steps|
  {
    if steps == [] {
      forall id | id in sys.held ensures Ready(sys.store, sys.held[id]) {
        HeldIsReady(sys, id);
      }
    } else {
      StepSafe(sys, steps[0]);
      RunSafe(Take(sys, steps[0]), steps[1..]);
    }
  }

  /** Where writes are admitted with an owner, no written blob is ever left with neither an owner
      nor a reader. */
  lemma {:induction false} RunAccounted(sys: Sys, steps: seq<Step>)
    requires Safe(sys) && Accounted(sys.store) && Run(sys, steps) && AllTidy(sys, steps)
    ensures Accounted(End(sys, steps).store)
    decreases |steps|
  {
    if steps != [] {
      StepSafe(sys, steps[0]);
      StepAccounted(sys, steps[0]);
      RunAccounted(Take(sys, steps[0]), steps[1..]);
    }
  }

  /** A committed route keeps its components, and each of them stays ready. */
  lemma {:induction false} RunRoutes(sys: Sys, steps: seq<Step>)
    requires Safe(sys) && RoutesHeld(sys.store) && Run(sys, steps) && AllSpareRoutes(steps)
    ensures RoutesReadable(End(sys, steps).store)
    ensures forall r :: r in sys.store.routes && sys.store.routes[r] != [] ==>
              r in End(sys, steps).store.routes && End(sys, steps).store.routes[r] == sys.store.routes[r]
    decreases |steps|
  {
    if steps == [] {
      HeldRoutesReadable(sys.store);
    } else {
      StepSafe(sys, steps[0]);
      StepRoutes(sys, steps[0]);
      assert forall i :: 0 <= i < |steps[1..]| ==> steps[1..][i] == steps[i + 1];
      RunRoutes(Take(sys, steps[0]), steps[1..]);
    }
  }
}
