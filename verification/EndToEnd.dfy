/** From the writer to the announcement: nothing is announced unless everything it points to was
    proven to be stored on a server it names. */
module EndToEnd {
  import opened Manifests
  import opened Reader
  import opened Reachability
  import opened Materialize
  import opened SagaModel
  import opened SagaInvariant
  import opened SagaRuns

  /** What a root needs in a world of blobs. */
  ghost function NeedsIn(c: Codec, world: Store): (Hash, Hash) -> bool {
    (root: Hash, h: Hash) => Needs(c, world, root, h)
  }

  /** A manifest needs the same blobs whatever kind of manifest it is linked as. */
  lemma RootRef(c: Codec, inventory: Store, refs: set<Ref>, root: Hash, kind: LinkType)
    requires ClosedRefs(c, inventory, refs) && Ref(root, kind) in refs && kind != Raw
    ensures ClosedRefs(c, inventory, refs + {Ref(root, Directory)})
  {
    forall m | c.decode(inventory[root]) == Some(m)
      ensures forall i :: 0 <= i < |m.links| ==> RefOf(m.links[i]) in refs
    {
      forall i | 0 <= i < |m.links| ensures RefOf(m.links[i]) in refs {
        assert Hop(c, inventory, Ref(root, kind), RefOf(m.links[i]));
      }
    }
    ClosedJoin(c, inventory, refs, Ref(root, Directory));
  }

  /** A build's inventory contains every blob reachable from its root, in any world of blobs. */
  lemma BuildCovers(c: Codec, world: Store, inventory: Store, refs: set<Ref>, root: Hash, kind: LinkType, h: Hash)
    requires ClosedRefs(c, inventory, refs) && Ref(root, kind) in refs && kind != Raw && Extends(inventory, world)
    requires Needs(c, world, root, h)
    ensures h in inventory
  {
    hide ClosedRefs, Reachable;
    RootRef(c, inventory, refs, root, kind);
    var more := refs + {Ref(root, Directory)};
    ClosedExtends(c, inventory, world, more);
    var k :| Reachable(c, world, Ref(root, Directory), Ref(h, k));
    ClosedCovers(c, world, more, Ref(root, Directory), Ref(h, k));
    ClosedHashes(c, inventory, more, Ref(h, k));
  }

  lemma ClosedHashes(c: Codec, inventory: Store, refs: set<Ref>, r: Ref)
    requires ClosedRefs(c, inventory, refs) && r in refs
    ensures r.hash in inventory
  {
  }

  /** So what the writer hands over is a candidate the publication machine accepts. */
  lemma WriterMeetsCoordinator(c: Codec, world: Store, inventory: Store, refs: set<Ref>, kind: LinkType, candidate: Candidate, s: Sys)
    requires ClosedRefs(c, inventory, refs) && Ref(candidate.root, kind) in refs && kind != Raw && Extends(inventory, world)
    ensures Take(NeedsIn(c, world), s, PendingStep(candidate, inventory.Keys)).Some?
  {
    hide Needs;
    ClosedHashes(c, inventory, refs, Ref(candidate.root, kind));
    forall h: Hash | NeedsIn(c, world)(candidate.root, h) ensures h in inventory.Keys {
      BuildCovers(c, world, inventory, refs, candidate.root, kind, h);
    }
  }

  /** End to end: in every state of every run, a recorded root event names a server that was
      proven to hold every blob reachable from the announced root. */
  lemma AnnouncedIsStored(c: Codec, world: Store, ss: seq<Sys>, i: nat, b: BatchId, x: Saga)
    requires Run(NeedsIn(c, world), ss) && i < |ss|
    requires (b in ss[i].repo.sagas && x == ss[i].repo.sagas[b]) || (b in ss[i].repo.history && x == ss[i].repo.history[b])
    requires x.signed.Some?
    ensures exists server :: server in x.signed.value.servers &&
              forall h: Hash :: Needs(c, world, x.signed.value.root, h) ==> (server, h) in ss[i].held
  {
    hide Run, Needs;
    var needs := NeedsIn(c, world);
    PublicationSafety(needs, ss, i, b, x);
    var server :| server in x.signed.value.servers && HoldsAll(needs, ss[i].held, server, x.signed.value.root);
    forall h: Hash | Needs(c, world, x.signed.value.root, h) ensures (server, h) in ss[i].held {
      assert needs(x.signed.value.root, h);
    }
  }
}
