/** Which blobs a root needs: following links from a reference through stored manifests. */
module Reachability {
  import opened Manifests
  import opened Reader

  /** A blob together with what it is linked as. */
  datatype Ref = Ref(hash: Hash, kind: LinkType)

  function RefOf(l: Link): Ref {
    Ref(l.hash, l.kind)
  }

  /** `b` is linked from the manifest `a`. */
  ghost predicate Hop(c: Codec, store: Store, a: Ref, b: Ref) {
    && a.kind != Raw && a.hash in store
    && match c.decode(store[a.hash])
       case None => false
       case Some(m) => exists i :: 0 <= i < |m.links| && RefOf(m.links[i]) == b
  }

  ghost predicate Chain(c: Codec, store: Store, p: seq<Ref>) {
    p != [] && forall i :: 0 <= i < |p| - 1 ==> Hop(c, store, p[i], p[i + 1])
  }

  /** Some chain of links leads from `root` to `r`. */
  ghost predicate Reachable(c: Codec, store: Store, root: Ref, r: Ref) {
    exists p :: Chain(c, store, p) && p[0] == root && p[|p| - 1] == r
  }

  /** A set of references that links do not lead out of. */
  ghost predicate ClosedRefs(c: Codec, store: Store, refs: set<Ref>) {
    && (forall r :: r in refs ==> r.hash in store)
    && forall a, b :: a in refs && Hop(c, store, a, b) ==> b in refs
  }

  lemma {:induction false} ChainStays(c: Codec, store: Store, refs: set<Ref>, p: seq<Ref>, i: nat)
    requires ClosedRefs(c, store, refs) && Chain(c, store, p) && p[0] in refs && i < |p|
    ensures p[i] in refs
  {
    if i > 0 {
      ChainStays(c, store, refs, p, i - 1);
      assert Hop(c, store, p[i - 1], p[i - 1 + 1]);
    }
  }

  /** Everything reachable from a member of a closed set is stored. */
  lemma ClosedCovers(c: Codec, store: Store, refs: set<Ref>, root: Ref, r: Ref)
    requires ClosedRefs(c, store, refs) && root in refs && Reachable(c, store, root, r)
    ensures r in refs && r.hash in store
  {
    var p :| Chain(c, store, p) && p[0] == root && p[|p| - 1] == r;
    ChainStays(c, store, refs, p, |p| - 1);
  }

  lemma ReachStep(c: Codec, store: Store, root: Ref, a: Ref, b: Ref)
    requires Reachable(c, store, root, a) && Hop(c, store, a, b)
    ensures Reachable(c, store, root, b)
  {
    var p :| Chain(c, store, p) && p[0] == root && p[|p| - 1] == a;
    var q := p + [b];
    forall i | 0 <= i < |q| - 1 ensures Hop(c, store, q[i], q[i + 1]) {
      if i < |p| - 1 { assert Hop(c, store, p[i], p[i + 1]); }
    }
    assert Chain(c, store, q) && q[0] == root && q[|q| - 1] == b;
  }

  lemma ReachSelf(c: Codec, store: Store, root: Ref)
    ensures Reachable(c, store, root, root)
  {
    assert Chain(c, store, [root]);
  }

  /** `b` holds everything `a` holds, unchanged. */
  ghost predicate Extends(a: Store, b: Store) {
    forall h :: h in a ==> h in b && b[h] == a[h]
  }

  lemma ExtendsTrans(a: Store, b: Store, d: Store)
    requires Extends(a, b) && Extends(b, d)
    ensures Extends(a, d)
  {
  }

  /** More blobs do not open a closed set. */
  lemma ClosedExtends(c: Codec, a: Store, b: Store, refs: set<Ref>)
    requires ClosedRefs(c, a, refs) && Extends(a, b)
    ensures ClosedRefs(c, b, refs)
  {
    forall x, y | x in refs && Hop(c, b, x, y) ensures y in refs {
      assert Hop(c, a, x, y);
    }
  }

  /** A blob of no manifest kind, or a manifest that links into the set, can join it. */
  lemma ClosedJoin(c: Codec, store: Store, refs: set<Ref>, r: Ref)
    requires ClosedRefs(c, store, refs) && r.hash in store
    requires r.kind != Raw ==>
               forall m :: c.decode(store[r.hash]) == Some(m) ==> forall i :: 0 <= i < |m.links| ==> RefOf(m.links[i]) in refs
    ensures ClosedRefs(c, store, refs + {r})
  {
    forall x, y | x in refs + {r} && Hop(c, store, x, y) ensures y in refs + {r} {
      if x != r { assert x in refs; }
    }
  }
}
