/** The blob store's methods over its tables. */
module BlobStore {
  import opened Manifests
  import opened Sums
  import M = BlobModel
  import opened BlobModel
  import opened BlobInvariant
  import opened BlobEviction

  class Store {
    const capacity: nat
    var catalog: map<Hash, Row>
    var owners: set<(Owner, Hash)>
    var reservations: map<Token, nat>
    var leases: map<Hash, nat>
    var routes: map<string, seq<Part>>

    function Tables(): State
      reads this
    {
      State(capacity, catalog, owners, reservations, leases, routes)
    }

    constructor (capacity: nat)
      ensures Tables() == State(capacity, map[], {}, map[], map[], map[])
      ensures Valid(Tables()) && Accounted(Tables()) && RoutesHeld(Tables())
    {
      this.capacity := capacity;
      catalog, owners, reservations, leases, routes := map[], {}, map[], map[], map[];
      new;
      SumEmpty(reservations);
      SumEmpty(ReadySizes(catalog));
    }

    /** `usage`: ready plus reserved bytes. */
    method Usage() returns (used: nat)
      ensures used == Used(Tables())
    {
      var ready := Total(ReadySizes(catalog));
      var reserved := Total(reservations);
      used := ready + reserved;
    }

    /** `#makeSpace`: one query for the candidates, then deletions with the usage asked again. */
    method MakeSpace(required: nat, stuck: set<Hash>) returns (ghost order: seq<Hash>)
      modifies this`catalog, this`owners
      ensures EvictionOrder(old(Tables()), order)
      ensures Tables() == M.MakeSpace(old(Tables()), order, required, stuck)
    {
      var candidates := Candidates(Tables());
      order := candidates;
      var used := Usage();
      if used + required <= capacity {
        return;
      }
      var i := 0;
      while i < |candidates|
        invariant 0 <= i <= |candidates| && !Fits(Tables(), required)
        invariant Tables() == old(Tables()).(catalog := catalog, owners := owners)
        invariant M.MakeSpace(old(Tables()), order, required, stuck) == M.MakeSpace(Tables(), order[i..], required, stuck)
      {
        hide Used;
        assert order[i..][0] == candidates[i] && order[i..][1..] == order[i + 1..];
        if candidates[i] !in leases {
          Delete(candidates[i], stuck);
          used := Usage();
          if used + required <= capacity {
            return;
          }
        }
        i := i + 1;
      }
    }

    method Reserve(token: Token, bytes: nat, stuck: set<Hash>) returns (ok: bool, ghost order: seq<Hash>)
      modifies this
      ensures EvictionOrder(old(Tables()), order)
      ensures (Tables(), ok) == M.Reserve(old(Tables()), token, bytes, order, stuck)
      ensures old(Valid(Tables()) && token !in reservations) ==> Valid(Tables()) && (old(Accounted(Tables())) ==> Accounted(Tables()))
    {
      ghost var start := Tables();
      hide Used, M.MakeSpace;
      var before, rows := catalog, owners;
      order := MakeSpace(bytes, stuck);
      var used := Usage();
      ok := bytes <= capacity && used + bytes <= capacity;
      assert ok <==> bytes <= capacity && Fits(Tables(), bytes);
      if ok {
        reservations := reservations[token := bytes];
      } else {
        catalog, owners := before, rows;
      }
      if Valid(start) && token !in start.reservations {
        ReserveKeeps(start, token, bytes, order, stuck);
      }
    }

    method Delete(h: Hash, stuck: set<Hash>)
      modifies this`catalog, this`owners
      ensures Tables() == M.Delete(old(Tables()), h, stuck)
    {
      if h in catalog {
        catalog := catalog[h := catalog[h].(ready := false)];
        if h !in stuck && !Pinned(Tables(), h) {
          catalog := catalog - {h};
          owners := set p | p in owners && p.1 != h;
          assert catalog == old(catalog) - {h};
        }
      }
    }

    method DeleteIfUnownedWrite(h: Hash, stuck: set<Hash>)
      modifies this`catalog, this`owners
      ensures Tables() == M.DeleteIfUnownedWrite(old(Tables()), h, stuck)
    {
      if h !in leases && h in catalog && !Owned(owners, h) && catalog[h].origin == Write {
        Delete(h, stuck);
      }
    }

    /** The loop that follows dropped owner rows. */
    method DeleteEach(hashes: seq<Hash>, stuck: set<Hash>)
      modifies this`catalog, this`owners
      ensures Tables() == M.DeleteEach(old(Tables()), hashes, stuck)
    {
      var i := 0;
      while i < |hashes|
        invariant 0 <= i <= |hashes|
        invariant M.DeleteEach(old(Tables()), hashes, stuck) == M.DeleteEach(Tables(), hashes[i..], stuck)
      {
        assert hashes[i..][0] == hashes[i] && hashes[i..][1..] == hashes[i + 1..];
        DeleteIfUnownedWrite(hashes[i], stuck);
        i := i + 1;
      }
    }

    method ReleaseReservation(token: Token)
      modifies this`reservations
      ensures Tables() == M.ReleaseReservation(old(Tables()), token)
    {
      reservations := reservations - {token};
    }

    method Promote(token: Token, h: Hash, size: nat, origin: Origin, owner: Option<Owner>, now: int) returns (ok: bool)
      modifies this
      ensures (Tables(), ok) == M.Promote(old(Tables()), token, h, size, origin, owner, now)
      ensures old(Valid(Tables()) && token in reservations && size <= reservations[token]) ==>
        Valid(Tables()) && (old(Accounted(Tables())) && (origin == Write ==> owner.Some?) ==> Accounted(Tables()))
    {
      if Valid(Tables()) && token in reservations && size <= reservations[token] {
        PromoteKeeps(Tables(), token, h, size, origin, owner, now);
      }
      hide Valid, Accounted;
      if h in catalog && catalog[h].size != size {
        return false;
      }
      var merged := if h in catalog && catalog[h].origin != origin then Mixed else origin;
      catalog := catalog[h := Row(size, merged, now, true)];
      if owner.Some? {
        owners := owners + {(owner.value, h)};
      }
      reservations := reservations - {token};
      ok := true;
    }

    method Lookup(h: Hash, now: int) returns (ok: bool)
      modifies this`leases, this`catalog
      ensures (Tables(), ok) == M.Lookup(old(Tables()), h, now)
      ensures old(Valid(Tables())) ==> Valid(Tables()) && (old(Accounted(Tables())) ==> Accounted(Tables()))
    {
      if Valid(Tables()) {
        LookupKeeps(Tables(), h, now);
      }
      hide Valid, Accounted;
      if h !in catalog || !catalog[h].ready {
        return false;
      }
      leases := leases[h := (if h in leases then leases[h] else 0) + 1];
      catalog := catalog[h := catalog[h].(lastAccessed := now)];
      ok := true;
    }

    method ReleaseLease(h: Hash, stuck: set<Hash>)
      modifies this
      ensures Tables() == M.ReleaseLease(old(Tables()), h, stuck)
      ensures old(Valid(Tables())) ==> Valid(Tables()) && (old(Accounted(Tables())) ==> Accounted(Tables()))
    {
      if Valid(Tables()) {
        ReleaseLeaseKeeps(Tables(), h, stuck);
      }
      hide Valid, Accounted;
      var count: int := if h in leases then leases[h] else 1;
      count := count - 1;
      if count > 0 {
        leases := leases[h := count];
      } else {
        leases := leases - {h};
      }
      DeleteIfUnownedWrite(h, stuck);
    }

    method AcquireOwner(owner: Owner, h: Hash) returns (ok: bool)
      modifies this`owners
      ensures (Tables(), ok) == M.AcquireOwner(old(Tables()), owner, h)
    {
      ok := h in catalog && catalog[h].ready;
      if ok {
        owners := owners + {(owner, h)};
      }
    }

    method TransferOwner(src: Owner, dst: Owner, swept: seq<Hash>, stuck: set<Hash>)
      modifies this`owners, this`catalog
      ensures Tables() == M.TransferOwner(old(Tables()), src, dst, swept, stuck)
      ensures old(Valid(Tables())) ==> Valid(Tables()) && (old(Accounted(Tables())) && src != dst ==> Accounted(Tables()))
    {
      if Valid(Tables()) {
        TransferOwnerValid(Tables(), src, dst, swept, stuck);
        if Accounted(Tables()) && src != dst {
          TransferOwnerKeeps(Tables(), src, dst, swept, stuck);
        }
      }
      hide Valid, Accounted;
      owners := owners + (set q | q in owners && q.0 == src :: (dst, q.1));
      owners := set p | p in owners && p.0 != src;
      DeleteEach(swept, stuck);
    }

    /** The transfer of listed blobs, one by one. */
    method TransferListed(src: Owner, dst: Owner, hashes: seq<Hash>, swept: seq<Hash>, stuck: set<Hash>)
      modifies this`owners, this`catalog
      ensures Tables() == M.TransferListed(old(Tables()), src, dst, hashes, swept, stuck)
      ensures old(Valid(Tables())) ==> Valid(Tables()) && (old(Accounted(Tables())) && src != dst ==> Accounted(Tables()))
    {
      if Valid(Tables()) {
        TransferListedKeeps(Tables(), src, dst, hashes, swept, stuck);
      }
      hide Valid, Accounted;
      var i := 0;
      while i < |hashes|
        invariant 0 <= i <= |hashes|
        invariant Tables() == old(Tables()).(owners := owners)
        invariant TransferredEach(old(owners), src, dst, hashes) == TransferredEach(owners, src, dst, hashes[i..])
      {
        assert hashes[i..][0] == hashes[i] && hashes[i..][1..] == hashes[i + 1..];
        if (src, hashes[i]) in owners {
          owners := owners + {(dst, hashes[i])};
        }
        owners := owners - {(src, hashes[i])};
        i := i + 1;
      }
      DeleteEach(swept, stuck);
    }

    method ReleaseOwner(owner: Owner, stuck: set<Hash>) returns (ghost hashes: seq<Hash>)
      modifies this`owners, this`catalog
      ensures OwnedList(old(Tables()), owner, hashes)
      ensures Tables() == M.ReleaseOwner(old(Tables()), owner, hashes, stuck)
      ensures old(Valid(Tables())) ==> Valid(Tables()) && (old(Accounted(Tables())) ==> Accounted(Tables()))
    {
      var listed := OwnedBy(owner);
      hashes := listed;
      if Valid(Tables()) {
        ReleaseOwnerKeeps(Tables(), owner, hashes, stuck);
      }
      hide Valid, Accounted;
      owners := set p | p in owners && p.0 != owner;
      DeleteEach(listed, stuck);
    }

    method OwnedBy(owner: Owner) returns (hashes: seq<Hash>)
      ensures OwnedList(Tables(), owner, hashes)
    {
      hashes := [];
      var rest := set p | p in owners && p.0 == owner;
      while rest != {}
        invariant rest <= owners && forall p :: p in rest ==> p.0 == owner
        invariant forall i :: 0 <= i < |hashes| ==> (owner, hashes[i]) in owners
        invariant forall h :: (owner, h) in owners && (owner, h) !in rest ==> Among(hashes, h)
        decreases |rest|
      {
        var p :| p in rest;
        rest := rest - {p};
        ghost var listed := hashes;
        hashes := hashes + [p.1];
        forall h | (owner, h) in owners && (owner, h) !in rest ensures Among(hashes, h) {
          if (owner, h) == p {
            assert hashes[|listed|] == h;
          } else {
            var i :| 0 <= i < |listed| && listed[i] == h;
            assert hashes[i] == h;
          }
        }
      }
    }

    method ReleaseOwnerOf(owner: Owner, h: Hash, stuck: set<Hash>)
      modifies this`owners, this`catalog
      ensures Tables() == M.ReleaseOwnerOf(old(Tables()), owner, h, stuck)
    {
      owners := owners - {(owner, h)};
      DeleteIfUnownedWrite(h, stuck);
    }

    /** `commitRoute`: components are checked and taken over one by one; a missing one rolls the
        transaction back. */
    method CommitRoute(route: string, parts: seq<Part>, upload: Owner, stuck: set<Hash>) returns (ok: bool, ghost hashes: seq<Hash>)
      modifies this
      ensures OwnedList(old(Tables()), upload, hashes)
      ensures (Tables(), ok) == M.CommitRoute(old(Tables()), route, parts, upload, hashes, stuck)
      ensures old(Valid(Tables())) ==> Valid(Tables())
    {
      hide Valid, Accounted;
      hashes := OwnedBy(upload);
      if Valid(Tables()) {
        CommitRouteKeeps(Tables(), route, parts, upload, hashes, stuck);
      }
      if route in routes && routes[route] != [] {
        if routes[route] != parts {
          return false, hashes;
        }
        hashes := ReleaseOwner(upload, stuck);
        return true, hashes;
      }
      var before := owners;
      var i := 0;
      while i < |parts|
        invariant 0 <= i <= |parts|
        invariant owners == before + RouteRows(route, parts[..i])
        invariant forall j :: 0 <= j < i ==> (upload, parts[j].hash) in before
        invariant Tables() == old(Tables()).(owners := owners)
      {
        assert (upload, parts[i].hash) in owners <==> (upload, parts[i].hash) in before;
        if (upload, parts[i].hash) !in owners {
          owners := before;
          return false, hashes;
        }
        owners := owners + {(RouteOwner(route), parts[i].hash)};
        RouteRowsExtend(route, parts, i);
        i := i + 1;
      }
      if route in routes {
        owners := before;
        return false, hashes;
      }
      assert parts[..i] == parts;
      routes := routes[route := parts];
      owners := set p | p in owners && p.0 != upload;
      ok := true;
    }
  }

  lemma RouteRowsExtend(route: string, parts: seq<Part>, i: nat)
    requires i < |parts|
    ensures RouteRows(route, parts[..i + 1]) == RouteRows(route, parts[..i]) + {(RouteOwner(route), parts[i].hash)}
  {
    var a, b := parts[..i], parts[..i + 1];
    forall p | p in RouteRows(route, b) ensures p in RouteRows(route, a) + {(RouteOwner(route), parts[i].hash)} {
      var j :| 0 <= j < |b| && p == (RouteOwner(route), b[j].hash);
      assert j < i ==> a[j] == b[j];
    }
    forall p | p in RouteRows(route, a) ensures p in RouteRows(route, b) {
      var j :| 0 <= j < |a| && p == (RouteOwner(route), a[j].hash);
      assert a[j] == b[j];
    }
    assert b[i] == parts[i];
  }

  /** SQL's SUM over a column. */
  method Total<K>(m: map<K, nat>) returns (total: nat)
    ensures total == SumOf(m)
  {
    total := 0;
    var rest := m;
    while rest.Keys != {}
      invariant SumOf(m) == total + SumOf(rest)
      decreases |rest|
    {
      var k :| k in rest.Keys;
      SumRemove(rest, k);
      SmallerWithout(rest, k);
      total := total + rest[k];
      rest := rest - {k};
    }
    SumEmpty(rest);
  }

  /** The eviction query: candidates ordered by last access, then hash. */
  method Candidates(s: State) returns (order: seq<Hash>)
    ensures EvictionOrder(s, order)
  {
    var rest := set h | h in s.catalog && Candidate(s, h);
    order := [];
    while rest != {}
      invariant forall h :: h in rest ==> Candidate(s, h)
      invariant Ordered(s.catalog, order)
      invariant forall i :: 0 <= i < |order| ==> Candidate(s, order[i])
      invariant forall i, h :: 0 <= i < |order| && h in rest ==> Before(s.catalog, order[i], h)
      invariant forall h :: Candidate(s, h) && h !in rest ==> Among(order, h)
      decreases |rest|
    {
      hide Candidate;
      var h := Earliest(s.catalog, rest);
      rest := rest - {h};
      ghost var listed := order;
      order := order + [h];
      forall g | Candidate(s, g) && g !in rest ensures Among(order, g) {
        AmongSnoc(listed, h, g);
      }
    }
  }

  lemma AmongSnoc(hs: seq<Hash>, h: Hash, g: Hash)
    ensures Among(hs, g) || g == h ==> Among(hs + [h], g)
  {
    if g == h {
      assert (hs + [h])[|hs|] == g;
    } else if Among(hs, g) {
      var i :| 0 <= i < |hs| && hs[i] == g;
      assert (hs + [h])[i] == g;
    }
  }

  method Earliest(catalog: map<Hash, Row>, hs: set<Hash>) returns (h: Hash)
    requires hs != {} && hs <= catalog.Keys
    ensures h in hs && forall g :: g in hs && g != h ==> Before(catalog, h, g)
  {
    h :| h in hs;
    var rest := hs - {h};
    while rest != {}
      invariant h in hs && rest <= hs && h !in rest
      invariant forall g :: g in hs && g !in rest && g != h ==> Before(catalog, h, g)
      decreases |rest|
    {
      var g :| g in rest;
      rest := rest - {g};
      if Before(catalog, g, h) {
        h := g;
      }
    }
  }
}
