/** The blob catalogue: reservations, owners, leases, routes and eviction under a byte capacity. */
module BlobModel {
  import opened Manifests
  import opened Sums
  import opened LeaseCounts

  type Token = nat
  type Owner = string

  datatype Origin = Write | Remote | Mixed

  /** A catalogue row; a row that is not ready is being deleted. */
  datatype Row = Row(size: nat, origin: Origin, lastAccessed: int, ready: bool)

  datatype Part = Part(hash: Hash, size: nat)

  datatype State = State(
    capacity: nat,
    catalog: map<Hash, Row>,
    owners: set<(Owner, Hash)>,
    reservations: map<Token, nat>,
    leases: map<Hash, nat>,
    routes: map<string, seq<Part>>)

  // ---- Accounting ----

  function ReadySizes(catalog: map<Hash, Row>): map<Hash, nat> {
    map h | h in catalog && catalog[h].ready :: catalog[h].size
  }

  ghost function ReadyBytes(s: State): nat {
    SumOf(ReadySizes(s.catalog))
  }

  ghost function Used(s: State): nat {
    ReadyBytes(s) + SumOf(s.reservations)
  }

  ghost predicate Fits(s: State, bytes: nat) {
    Used(s) + bytes <= s.capacity
  }

  predicate Ready(s: State, h: Hash) {
    h in s.catalog && s.catalog[h].ready
  }

  predicate Owned(owners: set<(Owner, Hash)>, h: Hash) {
    exists p :: p in owners && p.1 == h
  }

  // ---- Deleting ----

  /** Whether a route component still refers to the row, which then cannot be removed. */
  predicate Pinned(s: State, h: Hash) {
    exists r :: r in s.routes && exists i :: 0 <= i < |s.routes[r]| && s.routes[r][i].hash == h
  }

  /** `#delete`: the row goes away with its file; where one of them cannot be removed the row
      stays behind, no longer ready. */
  function Delete(s: State, h: Hash, stuck: set<Hash>): State {
    if h !in s.catalog then s
    else if h in stuck || Pinned(s, h) then s.(catalog := s.catalog[h := s.catalog[h].(ready := false)])
    else s.(catalog := s.catalog - {h}, owners := set p | p in s.owners && p.1 != h)
  }

  /** `#deleteIfUnownedWrite` */
  function DeleteIfUnownedWrite(s: State, h: Hash, stuck: set<Hash>): State {
    if h in s.leases || h !in s.catalog || Owned(s.owners, h) || s.catalog[h].origin != Write then s
    else Delete(s, h, stuck)
  }

  function DeleteEach(s: State, hs: seq<Hash>, stuck: set<Hash>): State
    decreases |hs|
  {
    if hs == [] then s else DeleteEach(DeleteIfUnownedWrite(s, hs[0], stuck), hs[1..], stuck)
  }

  // ---- Eviction ----

  /** What the eviction query selects: ready, not written here alone, unowned. */
  predicate Candidate(s: State, h: Hash) {
    Ready(s, h) && s.catalog[h].origin != Write && !Owned(s.owners, h)
  }

  /** Least recently used first, ties by hash. */
  predicate Before(catalog: map<Hash, Row>, a: Hash, b: Hash)
    requires a in catalog && b in catalog
  {
    catalog[a].lastAccessed < catalog[b].lastAccessed || (catalog[a].lastAccessed == catalog[b].lastAccessed && a < b)
  }

  ghost predicate Ordered(catalog: map<Hash, Row>, hs: seq<Hash>) {
    && (forall i :: 0 <= i < |hs| ==> hs[i] in catalog)
    && forall i, j :: 0 <= i < j < |hs| ==> Before(catalog, hs[i], hs[j])
  }

  ghost predicate Among(hs: seq<Hash>, h: Hash) {
    exists i :: 0 <= i < |hs| && hs[i] == h
  }

  /** The candidates in the order of the query. */
  ghost predicate EvictionOrder(s: State, hs: seq<Hash>) {
    && Ordered(s.catalog, hs)
    && (forall i :: 0 <= i < |hs| ==> Candidate(s, hs[i]))
    && (forall h :: Candidate(s, h) ==> Among(hs, h))
  }

  /** The loop of `#makeSpace`: leased candidates are skipped, the others deleted until it fits. */
  ghost function MakeSpace(s: State, hs: seq<Hash>, bytes: nat, stuck: set<Hash>): State
    decreases |hs|
  {
    if Fits(s, bytes) || hs == [] then s
    else if hs[0] in s.leases then MakeSpace(s, hs[1..], bytes, stuck)
    else MakeSpace(Delete(s, hs[0], stuck), hs[1..], bytes, stuck)
  }

  /** `reserve`: make space, then take the bytes, or fail and roll back. */
  ghost function Reserve(s: State, token: Token, bytes: nat, order: seq<Hash>, stuck: set<Hash>): (State, bool) {
    var t := MakeSpace(s, order, bytes, stuck);
    if bytes <= s.capacity && Fits(t, bytes) then (t.(reservations := t.reservations[token := bytes]), true) else (s, false)
  }

  function ReleaseReservation(s: State, token: Token): State {
    s.(reservations := s.reservations - {token})
  }

  /** `#promote`: the admitted bytes become a ready row, the reservation ends. */
  function Promote(s: State, token: Token, h: Hash, size: nat, origin: Origin, owner: Option<Owner>, now: int): (State, bool) {
    if h in s.catalog && s.catalog[h].size != size then (s, false)
    else
      var merged := if h in s.catalog && s.catalog[h].origin != origin then Mixed else origin;
      (s.(catalog := s.catalog[h := Row(size, merged, now, true)],
          owners := if owner.Some? then s.owners + {(owner.value, h)} else s.owners,
          reservations := s.reservations - {token}), true)
  }

  // ---- Leases and owners ----

  function Lookup(s: State, h: Hash, now: int): (State, bool) {
    if !Ready(s, h) then (s, false)
    else
      (s.(leases := Taken(s.leases, h),
          catalog := s.catalog[h := s.catalog[h].(lastAccessed := now)]), true)
  }

  function DropLease(s: State, h: Hash): State {
    s.(leases := Dropped(s.leases, h))
  }

  function ReleaseLease(s: State, h: Hash, stuck: set<Hash>): State {
    DeleteIfUnownedWrite(DropLease(s, h), h, stuck)
  }

  function AcquireOwner(s: State, owner: Owner, h: Hash): (State, bool) {
    if Ready(s, h) then (s.(owners := s.owners + {(owner, h)}), true) else (s, false)
  }

  /** The owner rows after the insertions for `dst` and the deletion of `src`. */
  function Transferred(owners: set<(Owner, Hash)>, src: Owner, dst: Owner): set<(Owner, Hash)> {
    set p | p in owners + (set q | q in owners && q.0 == src :: (dst, q.1)) && p.0 != src
  }

  /** `transferOwner` for all of an owner's blobs, with the sweep over `swept` that follows. */
  function TransferOwner(s: State, src: Owner, dst: Owner, swept: seq<Hash>, stuck: set<Hash>): State {
    DeleteEach(s.(owners := Transferred(s.owners, src, dst)), swept, stuck)
  }

  /** The loop of a transfer restricted to listed blobs: insert for `dst`, then delete for `src`. */
  function TransferredEach(owners: set<(Owner, Hash)>, src: Owner, dst: Owner, hashes: seq<Hash>): set<(Owner, Hash)>
    decreases |hashes|
  {
    if hashes == [] then owners
    else
      var h := hashes[0];
      TransferredEach((if (src, h) in owners then owners + {(dst, h)} else owners) - {(src, h)}, src, dst, hashes[1..])
  }

  /** `transferOwner` for listed blobs, with the sweep that follows. */
  function TransferListed(s: State, src: Owner, dst: Owner, hashes: seq<Hash>, swept: seq<Hash>, stuck: set<Hash>): State {
    DeleteEach(s.(owners := TransferredEach(s.owners, src, dst, hashes)), swept, stuck)
  }

  function Disowned(owners: set<(Owner, Hash)>, owner: Owner): set<(Owner, Hash)> {
    set p | p in owners && p.0 != owner
  }

  /** `hashes` lists what `owner` owns. */
  ghost predicate OwnedList(s: State, owner: Owner, hashes: seq<Hash>) {
    && (forall i :: 0 <= i < |hashes| ==> (owner, hashes[i]) in s.owners)
    && (forall h :: (owner, h) in s.owners ==> Among(hashes, h))
  }

  /** `releaseOwner` for all of an owner's blobs, `hashes` being those in the order queried. */
  function ReleaseOwner(s: State, owner: Owner, hashes: seq<Hash>, stuck: set<Hash>): State {
    DeleteEach(s.(owners := Disowned(s.owners, owner)), hashes, stuck)
  }

  /** `releaseOwner` for one blob. */
  function ReleaseOwnerOf(s: State, owner: Owner, h: Hash, stuck: set<Hash>): State {
    DeleteIfUnownedWrite(s.(owners := s.owners - {(owner, h)}), h, stuck)
  }

  /** A new process: leases and reservations are gone. */
  function Restart(s: State): State {
    s.(leases := map[], reservations := map[])
  }

  function RouteOwner(route: string): Owner {
    "route:" + route
  }

  function RouteRows(route: string, parts: seq<Part>): set<(Owner, Hash)> {
    set i | 0 <= i < |parts| :: (RouteOwner(route), parts[i].hash)
  }

  /** `commitRoute`: the components pass from the upload to the route; committing the same route
      again only ends the upload. `hashes` lists the upload's blobs. */
  function CommitRoute(s: State, route: string, parts: seq<Part>, upload: Owner, hashes: seq<Hash>, stuck: set<Hash>): (State, bool) {
    if route in s.routes && s.routes[route] != [] then
      if s.routes[route] != parts then (s, false) else (ReleaseOwner(s, upload, hashes, stuck), true)
    else if route in s.routes || (exists i :: 0 <= i < |parts| && (upload, parts[i].hash) !in s.owners) then (s, false)
    else
      (s.(routes := s.routes[route := parts], owners := Disowned(s.owners + RouteRows(route, parts), upload)), true)
  }

  // ---- What every step keeps ----

  ghost predicate Valid(s: State) {
    && Used(s) <= s.capacity
    && (forall p :: p in s.owners ==> Ready(s, p.1))
    && (forall h :: h in s.leases ==> s.leases[h] > 0 && Ready(s, h))
  }

  /** No written blob lingers: each is owned or being read. */
  ghost predicate Accounted(s: State) {
    forall h :: Ready(s, h) && s.catalog[h].origin == Write ==> Owned(s.owners, h) || h in s.leases
  }

  /** The components of every committed route belong to the route. */
  ghost predicate RoutesHeld(s: State) {
    forall r, i :: r in s.routes && 0 <= i < |s.routes[r]| ==> (RouteOwner(r), s.routes[r][i].hash) in s.owners
  }
}
