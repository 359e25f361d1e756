/** Reading from stores nobody vouches for: blobs are filed under their digests, and that is all. */
module Integrity {
  import opened NameOrder
  import opened Manifests
  import opened Shapes
  import opened Reader
  import opened FileTrees
  import opened RoundTrip

  ghost predicate Verified(c: Codec, store: Store) {
    forall h :: h in store ==> c.digest(store[h]) == h
  }

  /** The walk came to an answer, whatever else a larger store or budget would have shown. */
  predicate Answers(o: Outcome) {
    o.Found? || o.Absent? || o.WrongType?
  }

  lemma SameBlob(c: Codec, a: Store, b: Store, h: Hash)
    requires Faithful(c) && Verified(c, a) && Verified(c, b) && h in a && h in b
    ensures a[h] == b[h]
  {
  }

  lemma SameLoad(c: Codec, limit: nat, a: Store, b: Store, h: Hash)
    requires Faithful(c) && Verified(c, a) && Verified(c, b) && Load(c, limit, a, h).Some? && Load(c, limit, b, h).Some?
    ensures Load(c, limit, a, h) == Load(c, limit, b, h)
  {
    SameBlob(c, a, b, h);
    hide ValidManifest;
  }

  /** Two stores that both answer give the same answer, whatever their depth budgets. */
  lemma {:induction false} WalkAgrees(c: Codec, limit: nat, a: Store, b: Store, h: Hash, expected: LinkType, segs: seq<Name>, depth: nat, depth': nat)
    requires Faithful(c) && Verified(c, a) && Verified(c, b) && segs != []
    requires Answers(Walk(c, limit, a, h, expected, segs, depth)) && Answers(Walk(c, limit, b, h, expected, segs, depth'))
    ensures Walk(c, limit, a, h, expected, segs, depth) == Walk(c, limit, b, h, expected, segs, depth')
    decreases depth
  {
    hide Load, FindName, FindSpan, Verified, Faithful;
    SameLoad(c, limit, a, b, h);
    var m := Load(c, limit, a, h).value;
    if m.kind == expected {
      if m.kind == Directory {
        var entry := FindName(m.links, segs[0]);
        if entry.Some? && |segs| > 1 && (entry.value.kind == Directory || entry.value.kind == Fanout) {
          WalkAgrees(c, limit, a, b, entry.value.hash, entry.value.kind, segs[1..], depth - 1, depth' - 1);
        }
      } else {
        var link := FindSpan(m.links, segs[0]);
        if link.Some? {
          WalkAgrees(c, limit, a, b, link.value.hash, link.value.kind, segs, depth - 1, depth' - 1);
        }
      }
    }
  }

  lemma {:induction false} PlanAgrees(c: Codec, limit: nat, a: Store, b: Store, h: Hash, depth: nat, output: nat, depth': nat, output': nat)
    requires Faithful(c) && Verified(c, a) && Verified(c, b)
    requires FilePlan(c, limit, a, h, depth, output).Planned? && FilePlan(c, limit, b, h, depth', output').Planned?
    ensures FilePlan(c, limit, a, h, depth, output) == FilePlan(c, limit, b, h, depth', output')
    decreases depth, 1, 0
  {
    hide Load, Verified, Faithful;
    SameLoad(c, limit, a, b, h);
    LinksAgree(c, limit, a, b, Load(c, limit, a, h).value.links, 0, depth, output, depth', output');
  }

  lemma {:induction false} LinksAgree(c: Codec, limit: nat, a: Store, b: Store, links: seq<Link>, total: nat, depth: nat, output: nat, depth': nat, output': nat)
    requires Faithful(c) && Verified(c, a) && Verified(c, b) && depth > 0 && depth' > 0
    requires PlanLinks(c, limit, a, links, total, depth, output).Planned? && PlanLinks(c, limit, b, links, total, depth', output').Planned?
    ensures PlanLinks(c, limit, a, links, total, depth, output) == PlanLinks(c, limit, b, links, total, depth', output')
    decreases depth, 0, |links|
  {
    hide Load, Verified, Faithful;
    if links != [] {
      if links[0].kind == File {
        PlanAgrees(c, limit, a, b, links[0].hash, depth - 1, output, depth' - 1, output');
      }
      LinksAgree(c, limit, a, b, links[1..], total + links[0].size, depth, output, depth', output');
    }
  }

  lemma {:induction false} FetchAgrees(c: Codec, a: Store, b: Store, chunks: seq<Link>)
    requires Faithful(c) && Verified(c, a) && Verified(c, b) && Fetch(a, chunks).Some? && Fetch(b, chunks).Some?
    ensures Fetch(a, chunks) == Fetch(b, chunks)
  {
    hide Verified, Faithful;
    if chunks != [] {
      SameBlob(c, a, b, chunks[0].hash);
      FetchAgrees(c, a, b, chunks[1..]);
    }
  }

  /** Nobody can make a reader deliver other bytes for a path under a root: two verified stores that
      both deliver it deliver the same, whatever the budgets. */
  lemma GetAgrees(c: Codec, limit: nat, a: Store, b: Store, root: Hash, segs: seq<Name>, depth: nat, output: nat, depth': nat, output': nat)
    requires Faithful(c) && Verified(c, a) && Verified(c, b)
    requires Get(c, limit, a, root, segs, depth, output).Delivered? && Get(c, limit, b, root, segs, depth', output').Delivered?
    ensures Get(c, limit, a, root, segs, depth, output) == Get(c, limit, b, root, segs, depth', output')
  {
    hide Verified, Faithful, Walk, Fetch, FilePlan;
    WalkAgrees(c, limit, a, b, root, Directory, segs, depth, depth');
    var l := Walk(c, limit, a, root, Directory, segs, depth).link;
    if l.kind == Raw {
      FetchAgrees(c, a, b, [l]);
    } else {
      PlanAgrees(c, limit, a, b, l.hash, depth, output, depth', output');
      FetchAgrees(c, a, b, FilePlan(c, limit, a, l.hash, depth, output).chunks);
    }
  }

  // ---- Sizes ----

  lemma {:induction false} FetchSize(store: Store, chunks: seq<Link>)
    requires Fetch(store, chunks).Some?
    ensures |Fetch(store, chunks).value| == SumSizes(chunks)
  {
    if chunks != [] { FetchSize(store, chunks[1..]); }
  }

  lemma {:induction false} PlanSize(c: Codec, limit: nat, store: Store, h: Hash, depth: nat, output: nat)
    requires FilePlan(c, limit, store, h, depth, output).Planned?
    ensures var p := FilePlan(c, limit, store, h, depth, output); p.size == SumSizes(p.chunks) && p.size <= output
    decreases depth, 1, 0
  {
    hide Load;
    LinksSize(c, limit, store, Load(c, limit, store, h).value.links, 0, depth, output);
  }

  lemma {:induction false} LinksSize(c: Codec, limit: nat, store: Store, links: seq<Link>, total: nat, depth: nat, output: nat)
    requires depth > 0 && PlanLinks(c, limit, store, links, total, depth, output).Planned?
    ensures var p := PlanLinks(c, limit, store, links, total, depth, output);
      && p.size == total + SumSizes(p.chunks) == total + SumSizes(links) && (links != [] || total <= output ==> p.size <= output)
    decreases depth, 0, |links|
  {
    hide Load;
    if links != [] {
      if links[0].kind == File {
        PlanSize(c, limit, store, links[0].hash, depth - 1, output);
        var child := FilePlan(c, limit, store, links[0].hash, depth - 1, output);
        var rest := PlanLinks(c, limit, store, links[1..], total + child.size, depth, output);
        SumSizesAppend(child.chunks, rest.chunks);
      } else {
        var rest := PlanLinks(c, limit, store, links[1..], total + links[0].size, depth, output);
        SumSizesAppend([links[0]], rest.chunks);
        assert [links[0]][1..] == [];
      }
      LinksSize(c, limit, store, links[1..], total + links[0].size, depth, output);
    }
  }

  /** What is delivered has exactly the size that its directory declares and that is announced. */
  lemma DeliveredSize(c: Codec, limit: nat, store: Store, root: Hash, segs: seq<Name>, depth: nat, output: nat)
    requires Get(c, limit, store, root, segs, depth, output).Delivered?
    ensures var w, r := Walk(c, limit, store, root, Directory, segs, depth), Get(c, limit, store, root, segs, depth, output);
      w.Found? && |r.body| == r.size == w.link.size && r.kind == w.link.kind && (r.kind == File ==> r.size <= output)
  {
    hide Walk, Fetch, FilePlan;
    var l := Walk(c, limit, store, root, Directory, segs, depth).link;
    if l.kind == Raw {
      FetchSize(store, [l]);
      assert [l][1..] == [];
      assert SumSizes([l]) == l.size + SumSizes([]);
    } else {
      PlanSize(c, limit, store, l.hash, depth, output);
      FetchSize(store, FilePlan(c, limit, store, l.hash, depth, output).chunks);
    }
  }
}
