/** `PathResolver.materialize`: fetch everything a root needs, once each. */
module Materialize {
  import opened Manifests
  import opened Reader
  import opened Reachability
  import opened Sums
  import opened Writer
  import opened Resolver

  /** A link is covered: a raw blob is held, a manifest has been visited. */
  ghost predicate Covered(held: set<Hash>, traversed: set<Hash>, l: Link) {
    if l.kind == Raw then l.hash in held else l.hash in traversed
  }

  /** All links of a manifest are covered. */
  ghost predicate Done(c: Codec, limit: nat, store: Store, held: set<Hash>, traversed: set<Hash>, h: Hash) {
    match Load(c, limit, store, h)
    case None => false
    case Some(m) => forall i :: 0 <= i < |m.links| ==> Covered(held, traversed, m.links[i])
  }

  /** Every manifest visited since `before` is done. */
  ghost predicate DoneSince(c: Codec, limit: nat, store: Store, held: set<Hash>, traversed: set<Hash>, before: set<Hash>) {
    forall x :: x in traversed && x !in before ==> Done(c, limit, store, held, traversed, x)
  }

  /** The blobs a root needs. */
  ghost predicate Needs(c: Codec, store: Store, root: Hash, h: Hash) {
    exists kind :: Reachable(c, store, Ref(root, Directory), Ref(h, kind))
  }

  ghost predicate AllNeeded(c: Codec, store: Store, root: Hash, held: set<Hash>) {
    forall x :: x in held ==> Needs(c, store, root, x)
  }

  /** What a manifest must be for everything it links to directly to be fetched: it loads as the
      kind it is linked as, and every raw blob has the declared size, which is not zero. */
  ghost predicate Complete(c: Codec, limit: nat, store: Store, r: Ref) {
    match Load(c, limit, store, r.hash)
    case None => false
    case Some(m) =>
      && m.kind == r.kind
      && forall i :: 0 <= i < |m.links| && m.links[i].kind == Raw ==> Deliverable(store, m.links[i])
  }

  ghost predicate Deliverable(store: Store, l: Link) {
    l.hash in store && |store[l.hash]| == l.size && l.size > 0
  }

  /** Every manifest below the root is complete. */
  ghost predicate AllComplete(c: Codec, limit: nat, store: Store, root: Hash) {
    forall r: Ref :: r.kind != Raw && Reachable(c, store, Ref(root, Directory), r) ==> Complete(c, limit, store, r)
  }

  /** No blob below the root is empty, manifests aside, and the root is a directory. */
  ghost predicate NothingEmpty(c: Codec, limit: nat, store: Store, root: Hash) {
    && Load(c, limit, store, root).Some? && Load(c, limit, store, root).value.kind == Directory
    && forall h :: Needs(c, store, root, h) ==> h in store && (store[h] != [] || Load(c, limit, store, h).Some?)
  }

  lemma DoneMore(c: Codec, limit: nat, store: Store, held: set<Hash>, held': set<Hash>, traversed: set<Hash>, traversed': set<Hash>,
                 before: set<Hash>)
    requires DoneSince(c, limit, store, held, traversed, before) && held <= held' && traversed <= traversed'
    requires DoneSince(c, limit, store, held', traversed', traversed)
    ensures DoneSince(c, limit, store, held', traversed', before)
  {
    forall x | x in traversed' && x !in before ensures Done(c, limit, store, held', traversed', x) {
      if x in traversed { assert Done(c, limit, store, held, traversed, x); }
    }
  }

  /** What one catalogue of fetched blobs has to satisfy. */
  ghost predicate Catalogue(store: Store, held: Store, order: seq<Hash>, total: nat) {
    && Extends(held, store)
    && (forall h :: h in order <==> h in held)
    && (forall i, j :: 0 <= i < j < |order| ==> order[i] != order[j])
    && total == SumOf(Sizes(held))
  }

  lemma CatalogueMore(store: Store, held: Store, order: seq<Hash>, total: nat, h: Hash)
    requires Catalogue(store, held, order, total) && h in store && h !in held
    ensures Catalogue(store, held[h := store[h]], order + [h], total + |store[h]|)
  {
    SumInsert(Sizes(held), h, |store[h]|);
    assert Sizes(held[h := store[h]]) == Sizes(held)[h := |store[h]|];
  }

  class Materializer {
    const c: Codec
    const limit: nat
    /** What the sources can deliver. */
    const store: Store
    ghost const root: Hash
    var held: Store
    var traversed: set<Hash>
    var order: seq<Hash>
    var totalBytes: nat
    /** What was fetched as a manifest, without a declared size. */
    ghost var unsized: set<Hash>

    ghost predicate Valid()
      reads this
    {
      && Catalogue(store, held, order, totalBytes) && traversed <= held.Keys
      && AllNeeded(c, store, root, held.Keys)
      && forall h :: h in held && h !in unsized ==> store[h] != []
    }

    constructor (c: Codec, limit: nat, store: Store, ghost root: Hash)
      ensures Valid() && held == map[] && traversed == {} && unsized == {}
      ensures this.c == c && this.limit == limit && this.store == store && this.root == root
    {
      this.c, this.limit, this.store, this.root := c, limit, store, root;
      held, traversed, order, totalBytes, unsized := map[], {}, [], 0, {};
      new;
      SumEmpty(Sizes(held));
    }

    /** Fetch a blob unless it is held; a declared size must be its size, and not zero. */
    method FetchOne(h: Hash, declared: Option<nat>) returns (ok: bool)
      requires Valid() && Needs(c, store, root, h)
      modifies this`held, this`order, this`totalBytes, this`unsized
      ensures Valid()
      ensures ok <==> h in old(held) || (h in store && (declared.None? || (declared.value > 0 && |store[h]| == declared.value)))
      ensures held.Keys == if ok then old(held.Keys) + {h} else old(held.Keys)
      ensures unsized == if ok && h !in old(held) && declared.None? then old(unsized) + {h} else old(unsized)
    {
      hide Catalogue, Needs;
      if h in held {
        return true;
      }
      if h !in store || (declared.Some? && (declared.value == 0 || |store[h]| != declared.value)) {
        return false;
      }
      CatalogueMore(store, held, order, totalBytes, h);
      totalBytes := totalBytes + |store[h]|;
      order := order + [h];
      held := held[h := store[h]];
      if declared.None? {
        unsized := unsized + {h};
      }
      return true;
    }

    /** Fetch or visit what a link of manifest `h` leads to. */
    method Follow(link: Link, ghost h: Hash, ghost kind: LinkType) returns (ok: bool)
      requires Valid() && Reachable(c, store, Ref(root, Directory), Ref(h, kind)) && Hop(c, store, Ref(h, kind), RefOf(link))
      requires unsized <= traversed
      modifies this`held, this`order, this`totalBytes, this`traversed, this`unsized
      ensures Valid() && old(held.Keys) <= held.Keys && old(traversed) <= traversed
      ensures ok ==> unsized <= traversed
      ensures ok ==> Covered(held.Keys, traversed, link) && DoneSince(c, limit, store, held.Keys, traversed, old(traversed))
      ensures AllComplete(c, limit, store, root) && (link.kind == Raw ==> Deliverable(store, link)) ==> ok
      decreases store.Keys - traversed, 1
    {
      hide Catalogue, Reachable, Hop, AllNeeded, Done, AllComplete;
      ReachStep(c, store, Ref(root, Directory), Ref(h, kind), RefOf(link));
      assert Needs(c, store, root, link.hash);
      if link.kind == Raw {
        ok := FetchOne(link.hash, Some(link.size));
      } else {
        ok := VisitManifest(link.hash, link.kind);
      }
    }

    /** Visit a manifest and everything below it: every manifest newly visited ends up done. */
    method VisitManifest(h: Hash, kind: LinkType) returns (ok: bool)
      requires Valid() && kind != Raw && Reachable(c, store, Ref(root, Directory), Ref(h, kind)) && unsized <= traversed
      modifies this`held, this`order, this`totalBytes, this`traversed, this`unsized
      ensures Valid() && old(held.Keys) <= held.Keys && old(traversed) <= traversed
      ensures ok ==> unsized <= traversed
      ensures ok && h !in old(traversed) ==> Load(c, limit, store, h).Some? && Load(c, limit, store, h).value.kind == kind
      ensures AllComplete(c, limit, store, root) ==> ok
      ensures ok ==> h in traversed && DoneSince(c, limit, store, held.Keys, traversed, old(traversed))
      decreases store.Keys - traversed, 0
    {
      hide Catalogue, Reachable, AllNeeded, Done, DoneSince, Covered, Load, AllComplete, Deliverable;
      CompleteAt(c, limit, store, root, Ref(h, kind));
      if h in traversed {
        NothingNew(c, limit, store, held.Keys, traversed);
        return true;
      }
      assert Needs(c, store, root, h);
      var fetched := FetchOne(h, None);
      if !fetched {
        return false;
      }
      HeldStored(store, held, order, totalBytes, h);
      traversed := traversed + {h};
      var loaded := FetchManifest(c, limit, store, h);
      if loaded.None? || loaded.value.kind != kind {
        return false;
      }
      var links := loaded.value.links;
      ghost var start := traversed;
      NothingNew(c, limit, store, held.Keys, traversed);
      for i := 0 to |links|
        invariant Valid() && old(held.Keys) <= held.Keys && start <= traversed && unsized <= traversed
        invariant DoneSince(c, limit, store, held.Keys, traversed, start)
        invariant AllCovered(held.Keys, traversed, links[..i])
      {
        ghost var held', traversed' := held.Keys, traversed;
        LoadedHop(c, limit, store, h, kind, i);
        var followed := Follow(links[i], h, kind);
        if !followed {
          return false;
        }
        DoneMore(c, limit, store, held', held.Keys, traversed', traversed, start);
        CoveredMore(held', held.Keys, traversed', traversed, links, i);
      }
      assert links[..|links|] == links;
      VisitDone(c, limit, store, held.Keys, traversed, old(traversed), h, loaded.value);
      return true;
    }
  }

  lemma CompleteAt(c: Codec, limit: nat, store: Store, root: Hash, r: Ref)
    requires r.kind != Raw && Reachable(c, store, Ref(root, Directory), r)
    ensures AllComplete(c, limit, store, root) ==> Complete(c, limit, store, r)
    ensures Load(c, limit, store, r.hash).Some? ==> r.hash in store
  {
    hide Complete, Reachable;
  }

  lemma LoadedHop(c: Codec, limit: nat, store: Store, h: Hash, kind: LinkType, i: nat)
    requires Load(c, limit, store, h).Some? && kind != Raw && i < |Load(c, limit, store, h).value.links|
    ensures Hop(c, store, Ref(h, kind), RefOf(Load(c, limit, store, h).value.links[i]))
  {
  }

  ghost predicate AllCovered(held: set<Hash>, traversed: set<Hash>, links: seq<Link>) {
    forall i :: 0 <= i < |links| ==> Covered(held, traversed, links[i])
  }

  lemma CoveredMore(held: set<Hash>, held': set<Hash>, traversed: set<Hash>, traversed': set<Hash>, links: seq<Link>, i: nat)
    requires i < |links| && AllCovered(held, traversed, links[..i]) && held <= held' && traversed <= traversed'
    requires Covered(held', traversed', links[i])
    ensures AllCovered(held', traversed', links[..i + 1])
  {
  }

  lemma NothingNew(c: Codec, limit: nat, store: Store, held: set<Hash>, traversed: set<Hash>)
    ensures DoneSince(c, limit, store, held, traversed, traversed)
  {
  }

  lemma HeldStored(store: Store, held: Store, order: seq<Hash>, total: nat, h: Hash)
    requires Catalogue(store, held, order, total) && h in held
    ensures h in store
  {
  }

  lemma VisitDone(c: Codec, limit: nat, store: Store, held: set<Hash>, traversed: set<Hash>, before: set<Hash>, h: Hash, m: Manifest)
    requires DoneSince(c, limit, store, held, traversed, before + {h})
    requires Load(c, limit, store, h) == Some(m) && AllCovered(held, traversed, m.links)
    ensures DoneSince(c, limit, store, held, traversed, before)
  {
    hide Covered;
    assert Done(c, limit, store, held, traversed, h);
  }

  ghost function Visited(held: set<Hash>, traversed: set<Hash>): set<Ref> {
    (set h | h in held :: Ref(h, Raw)) + (set h | h in traversed :: Ref(h, File))
    + (set h | h in traversed :: Ref(h, Directory)) + (set h | h in traversed :: Ref(h, Fanout))
  }

  /** What was visited is closed under links. */
  lemma VisitedClosed(c: Codec, limit: nat, store: Store, held: set<Hash>, traversed: set<Hash>)
    requires held <= store.Keys && traversed <= held && DoneSince(c, limit, store, held, traversed, {})
    ensures ClosedRefs(c, store, Visited(held, traversed))
  {
    var refs := Visited(held, traversed);
    forall a, b | a in refs && Hop(c, store, a, b) ensures b in refs {
      var m := c.decode(store[a.hash]).value;
      var i :| 0 <= i < |m.links| && RefOf(m.links[i]) == b;
      assert Done(c, limit, store, held, traversed, a.hash);
      assert Covered(held, traversed, m.links[i]);
    }
  }

  /** Nothing needed is missing. */
  lemma VisitedAll(c: Codec, limit: nat, store: Store, root: Hash, held: set<Hash>, traversed: set<Hash>, h: Hash)
    requires held <= store.Keys && root in traversed && traversed <= held && DoneSince(c, limit, store, held, traversed, {})
    requires Needs(c, store, root, h)
    ensures h in held
  {
    hide ClosedRefs, Reachable, DoneSince;
    VisitedClosed(c, limit, store, held, traversed);
    var kind :| Reachable(c, store, Ref(root, Directory), Ref(h, kind));
    ClosedCovers(c, store, Visited(held, traversed), Ref(root, Directory), Ref(h, kind));
  }

  ghost function BlobSizes(store: Store, hashes: seq<Hash>): map<Hash, nat>
    requires forall h :: h in hashes ==> h in store
  {
    map h | h in hashes :: |store[h]|
  }

  /** What was visited is closed in the inventory too. */
  lemma HeldClosed(c: Codec, limit: nat, store: Store, held: Store, traversed: set<Hash>)
    requires Extends(held, store) && traversed <= held.Keys && DoneSince(c, limit, store, held.Keys, traversed, {})
    ensures ClosedRefs(c, held, Visited(held.Keys, traversed))
  {
    VisitedClosed(c, limit, store, held.Keys, traversed);
    var refs := Visited(held.Keys, traversed);
    forall a, b | a in refs && Hop(c, held, a, b) ensures b in refs {
      assert Hop(c, store, a, b);
    }
  }

  /** Materialising a root lists exactly the blobs reachable from it, each once, and the total is
      the sum of their sizes; what it returns is an inventory closed under links, fit to be a base.
      It succeeds whenever every manifest below the root is complete, and never where a blob below
      it is empty. */
  method MaterializeRoot(c: Codec, limit: nat, store: Store, root: Hash)
    returns (hashes: Option<seq<Hash>>, total: nat, inventory: Store, ghost refs: set<Ref>)
    ensures hashes.Some? ==>
      && (forall h :: h in hashes.value <==> Needs(c, store, root, h))
      && (forall i, j :: 0 <= i < j < |hashes.value| ==> hashes.value[i] != hashes.value[j])
      && (forall h :: h in hashes.value ==> h in store)
      && total == SumOf(BlobSizes(store, hashes.value))
    ensures hashes.Some? ==>
      && Extends(inventory, store) && (forall h :: h in inventory <==> h in hashes.value)
      && ClosedRefs(c, inventory, refs) && Ref(root, Directory) in refs
    ensures AllComplete(c, limit, store, root) ==> hashes.Some?
    ensures hashes.Some? ==> NothingEmpty(c, limit, store, root)
  {
    hide Needs, DoneSince, Reachable, AllComplete, Load, ClosedRefs, Done;
    inventory, refs := map[], {};
    var run := new Materializer(c, limit, store, root);
    ReachSelf(c, store, Ref(root, Directory));
    var ok := run.VisitManifest(root, Directory);
    if !ok {
      return None, 0, inventory, refs;
    }
    forall h ensures Needs(c, store, root, h) <==> h in run.held {
      if Needs(c, store, root, h) { VisitedAll(c, limit, store, root, run.held.Keys, run.traversed, h); }
    }
    assert BlobSizes(store, run.order) == Sizes(run.held);
    inventory, refs := run.held, Visited(run.held.Keys, run.traversed);
    HeldClosed(c, limit, store, run.held, run.traversed);
    forall h | h in run.traversed ensures Load(c, limit, store, h).Some? {
      TraversedLoads(c, limit, store, run.held.Keys, run.traversed, h);
    }
    return Some(run.order), run.totalBytes, inventory, refs;
  }

  lemma TraversedLoads(c: Codec, limit: nat, store: Store, held: set<Hash>, traversed: set<Hash>, h: Hash)
    requires DoneSince(c, limit, store, held, traversed, {}) && h in traversed
    ensures Load(c, limit, store, h).Some?
  {
    assert Done(c, limit, store, held, traversed, h);
  }
}
