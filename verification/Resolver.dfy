/** The reader's code: resolving a path and planning a file under a request budget, and
    materialising everything below a root. */
module Resolver {
  import opened NameOrder
  import opened Manifests
  import opened Shapes
  import opened Reader
  import opened FileTrees
  import opened Reachability
  import opened Sums
  import opened Writer

  /** The counters of one request, as far as path resolution debits them. */
  class RequestBudget {
    const maxDepth: nat
    const maxLinks: nat
    const maxNodes: nat
    var links: nat
    var nodes: set<Hash>

    ghost predicate Valid()
      reads this
    {
      links <= maxLinks && |nodes| <= maxNodes
    }

    constructor (maxDepth: nat, maxLinks: nat, maxNodes: nat)
      ensures Valid() && links == 0 && nodes == {}
      ensures this.maxDepth == maxDepth && this.maxLinks == maxLinks && this.maxNodes == maxNodes
    {
      this.maxDepth, this.maxLinks, this.maxNodes := maxDepth, maxLinks, maxNodes;
      links, nodes := 0, {};
    }

    method DebitLinks(count: nat) returns (ok: bool)
      requires Valid()
      modifies this`links
      ensures Valid() && (ok <==> old(links) + count <= maxLinks)
      ensures links == if ok then old(links) + count else old(links)
    {
      ok := links + count <= maxLinks;
      if ok { links := links + count; }
    }

    method Visit(h: Hash) returns (ok: bool)
      requires Valid()
      modifies this`nodes
      ensures Valid() && (ok <==> h in old(nodes) || |old(nodes)| < maxNodes)
      ensures nodes == if ok then old(nodes) + {h} else old(nodes)
    {
      ok := h in nodes || |nodes| < maxNodes;
      if ok { nodes := nodes + {h}; }
    }

    /** The counters cannot run out within `n` manifests of at most `limit` links. */
    ghost predicate Affords(n: nat, limit: nat)
      reads this
    {
      Room(links, |nodes|, maxLinks, maxNodes, n, limit)
    }
  }

  ghost predicate Room(links: nat, nodes: nat, maxLinks: nat, maxNodes: nat, n: nat, limit: nat) {
    links + n * limit <= maxLinks && nodes + n <= maxNodes
  }

  method FetchManifest(c: Codec, limit: nat, store: Store, h: Hash) returns (r: Option<Manifest>)
    ensures r == Load(c, limit, store, h)
  {
    if h !in store { return None; }
    var decoded := c.decode(store[h]);
    if decoded.None? { return None; }
    var valid := CheckManifest(decoded.value, limit);
    return if valid then decoded else None;
  }

  lemma LoadedLinks(c: Codec, limit: nat, store: Store, h: Hash)
    requires Load(c, limit, store, h).Some?
    ensures |Load(c, limit, store, h).value.links| <= limit
  {
  }

  /** `PathResolver.resolve` up to the final link: the loop over `hash`, `expected` and
      `segmentIndex`.  The answer is the walk's, or the budget ran out; it is the walk's whenever
      the budget affords one manifest per unit of depth. */
  method Resolve(c: Codec, limit: nat, store: Store, root: Hash, segs: seq<Name>, budget: RequestBudget) returns (r: Outcome)
    requires budget.Valid()
    modifies budget
    ensures budget.Valid()
    ensures segs == [] ==> r == Absent
    ensures segs != [] ==> r == OverBudget || r == Walk(c, limit, store, root, Directory, segs, budget.maxDepth)
    ensures segs != [] && old(budget.Affords(budget.maxDepth, limit)) ==>
              r == Walk(c, limit, store, root, Directory, segs, budget.maxDepth)
  {
    hide Load, FindName, FindSpan;
    if segs == [] {
      return Absent;
    }
    ghost var answer := Walk(c, limit, store, root, Directory, segs, budget.maxDepth);
    ghost var rich := budget.Affords(budget.maxDepth, limit);
    var hash, expected, index, depth := root, Directory, 0, 0;
    while true
      invariant budget.Valid() && index < |segs| && depth <= budget.maxDepth
      invariant expected == Directory || expected == Fanout
      invariant answer == Walk(c, limit, store, hash, expected, segs[index..], budget.maxDepth - depth)
      invariant rich ==> budget.Affords(budget.maxDepth - depth, limit)
      decreases budget.maxDepth - depth
    {
      depth := depth + 1;
      if depth > budget.maxDepth {
        return OverBudget;
      }
      assert segs[index..][0] == segs[index];
      var visited := budget.Visit(hash);
      if !visited {
        return OverBudget;
      }
      var loaded := FetchManifest(c, limit, store, hash);
      if loaded.None? {
        return Unavailable;
      }
      LoadedLinks(c, limit, store, hash);
      var m := loaded.value;
      if m.kind != expected {
        return WrongType;
      }
      if rich { SpendOne(budget.maxDepth - depth, limit); }
      var debited := budget.DebitLinks(|m.links|);
      if !debited {
        return OverBudget;
      }
      var segment := segs[index];
      var link := if m.kind == Directory then FindName(m.links, segment) else FindSpan(m.links, segment);
      if link.None? {
        return Absent;
      }
      if m.kind == Fanout {
        SpanKind(c, limit, store, hash, segment);
        hash, expected := link.value.hash, link.value.kind;
      } else if index == |segs| - 1 {
        return Found(link.value);
      } else if link.value.kind != Directory && link.value.kind != Fanout {
        return Absent;
      } else {
        assert segs[index..][1..] == segs[index + 1..];
        index := index + 1;
        hash, expected := link.value.hash, link.value.kind;
      }
    }
  }

  lemma SpendOne(n: nat, limit: nat)
    ensures (n + 1) * limit == n * limit + limit
  {
  }

  lemma SpanKind(c: Codec, limit: nat, store: Store, h: Hash, n: Name)
    requires Load(c, limit, store, h).Some? && Load(c, limit, store, h).value.kind == Fanout
    requires FindSpan(Load(c, limit, store, h).value.links, n).Some?
    ensures var l := FindSpan(Load(c, limit, store, h).value.links, n).value; l.kind == Directory || l.kind == Fanout
  {
    var i := FindSpanSome(Load(c, limit, store, h).value.links, n);
  }

  /** How many manifests planning a file visits at most, a shared one each time. */
  ghost function PlanVisits(c: Codec, limit: nat, store: Store, h: Hash, depth: nat): nat
    decreases depth, 1, 0
  {
    if depth == 0 then 0
    else
      match Load(c, limit, store, h)
      case None => 1
      case Some(m) => 1 + LinkVisits(c, limit, store, m.links, depth)
  }

  ghost function LinkVisits(c: Codec, limit: nat, store: Store, links: seq<Link>, depth: nat): nat
    requires depth > 0
    decreases depth, 0, |links|
  {
    if links == [] then 0
    else (if links[0].kind == File then PlanVisits(c, limit, store, links[0].hash, depth - 1) else 0)
         + LinkVisits(c, limit, store, links[1..], depth)
  }

  /** At most `n` manifests of `limit` links lie between two readings of the counters. */
  ghost predicate SpentAtMost(l0: nat, n0: nat, l1: nat, n1: nat, n: nat, limit: nat) {
    l1 <= l0 + n * limit && n1 <= n0 + n
  }

  lemma SpentMore(l0: nat, n0: nat, l1: nat, n1: nat, l2: nat, n2: nat, a: nat, b: nat, limit: nat)
    requires SpentAtMost(l0, n0, l1, n1, a, limit) && SpentAtMost(l1, n1, l2, n2, b, limit)
    ensures SpentAtMost(l0, n0, l2, n2, a + b, limit)
  {
    assert (a + b) * limit == a * limit + b * limit;
  }

  lemma SpentOne(l0: nat, n0: nat, l1: nat, n1: nat, n: nat, limit: nat)
    requires l1 <= l0 + limit && n1 <= n0 + 1 && (n > 0 || (l1 == l0 && n1 == n0))
    ensures SpentAtMost(l0, n0, l1, n1, n, limit)
  {
    if n > 0 {
      assert n * limit == (n - 1) * limit + limit;
      assert (n - 1) * limit >= 0;
    }
  }

  /** With room for `a + b` manifests, spending `a` leaves room for `b`. */
  lemma RoomLeft(l0: nat, n0: nat, l1: nat, n1: nat, maxLinks: nat, maxNodes: nat, a: nat, b: nat, limit: nat)
    requires SpentAtMost(l0, n0, l1, n1, a, limit) && Room(l0, n0, maxLinks, maxNodes, a + b, limit)
    ensures Room(l1, n1, maxLinks, maxNodes, b, limit)
  {
    assert (a + b) * limit == a * limit + b * limit;
  }

  /** `#filePlan`'s recursive visit.  The answer is the plan, or the budget ran out; it is the plan
      whenever the budget affords as many manifests as the plan visits. */
  method PlanFile(c: Codec, limit: nat, store: Store, h: Hash, depth: nat, output: nat, budget: RequestBudget) returns (r: Plan)
    requires budget.Valid()
    modifies budget
    ensures budget.Valid()
    ensures r == PlanOverBudget || r == FilePlan(c, limit, store, h, depth, output)
    ensures old(budget.Affords(PlanVisits(c, limit, store, h, depth), limit)) ==> r == FilePlan(c, limit, store, h, depth, output)
    ensures SpentAtMost(old(budget.links), |old(budget.nodes)|, budget.links, |budget.nodes|, PlanVisits(c, limit, store, h, depth), limit)
    decreases depth, 1
  {
    hide Load, SpentAtMost, PlanLinks, LinkVisits;
    ghost var l0, n0, visits := budget.links, |budget.nodes|, PlanVisits(c, limit, store, h, depth);
    if depth == 0 {
      SpentOne(l0, n0, l0, n0, visits, limit);
      return PlanOverBudget;
    }
    var visited := budget.Visit(h);
    if !visited {
      SpentOne(l0, n0, l0, n0, visits, limit);
      return PlanOverBudget;
    }
    SpentOne(l0, n0, budget.links, |budget.nodes|, visits, limit);
    var loaded := FetchManifest(c, limit, store, h);
    if loaded.None? || loaded.value.kind != File {
      return PlanFailed;
    }
    var links := loaded.value.links;
    LoadedLinks(c, limit, store, h);
    ghost var below := LinkVisits(c, limit, store, links, depth);
    SpendOne(below, limit);
    var debited := budget.DebitLinks(|links|);
    if !debited {
      return PlanOverBudget;
    }
    ghost var l1, n1 := budget.links, |budget.nodes|;
    SpentOne(l0, n0, l1, n1, 1, limit);
    if old(budget.Affords(visits, limit)) {
      RoomLeft(l0, n0, l1, n1, budget.maxLinks, budget.maxNodes, 1, below, limit);
    }
    r := PlanChildren(c, limit, store, links, depth, output, budget);
    SpentMore(l0, n0, l1, n1, budget.links, |budget.nodes|, 1, below, limit);
  }

  /** The loop over a manifest's links: accumulate chunks and sizes, checking each declared size. */
  method PlanChildren(c: Codec, limit: nat, store: Store, links: seq<Link>, depth: nat, output: nat, budget: RequestBudget) returns (r: Plan)
    requires budget.Valid() && depth > 0
    modifies budget
    ensures budget.Valid()
    ensures r == PlanOverBudget || r == PlanLinks(c, limit, store, links, 0, depth, output)
    ensures old(budget.Affords(LinkVisits(c, limit, store, links, depth), limit)) ==> r == PlanLinks(c, limit, store, links, 0, depth, output)
    ensures SpentAtMost(old(budget.links), |old(budget.nodes)|, budget.links, |budget.nodes|, LinkVisits(c, limit, store, links, depth), limit)
    decreases depth, 0
  {
    hide SpentAtMost, FilePlan, PlanVisits, Room;
    ghost var l0, n0, visits, rich := budget.links, |budget.nodes|, LinkVisits(c, limit, store, links, depth),
                                      budget.Affords(LinkVisits(c, limit, store, links, depth), limit);
    ghost var answer := PlanLinks(c, limit, store, links, 0, depth, output);
    var total: nat := 0;
    var chunks: seq<Link> := [];
    ghost var done: nat := 0;
    SpentOne(l0, n0, l0, n0, 0, limit);
    for i := 0 to |links|
      invariant budget.Valid()
      invariant answer == Prepend(chunks, PlanLinks(c, limit, store, links[i..], total, depth, output))
      invariant done + LinkVisits(c, limit, store, links[i..], depth) == visits
      invariant SpentAtMost(l0, n0, budget.links, |budget.nodes|, done, limit)
      invariant rich ==> budget.Affords(visits - done, limit)
    {
      var link := links[i];
      assert links[i..][0] == link && links[i..][1..] == links[i + 1..];
      var child;
      if link.kind == Raw {
        child := Planned(link.size, [link]);
      } else if link.kind == File {
        ghost var l1, n1, v := budget.links, |budget.nodes|, PlanVisits(c, limit, store, link.hash, depth - 1);
        if rich { RoomForFirst(l1, n1, budget.maxLinks, budget.maxNodes, v, visits - done, limit); }
        child := PlanFile(c, limit, store, link.hash, depth - 1, output, budget);
        SpentMore(l0, n0, l1, n1, budget.links, |budget.nodes|, done, v, limit);
        if rich { RoomLeft(l1, n1, budget.links, |budget.nodes|, budget.maxLinks, budget.maxNodes, v, visits - done - v, limit); }
        done := done + v;
        SpentLess(l0, n0, budget.links, |budget.nodes|, done, visits, limit);
        if child.PlanOverBudget? {
          return PlanOverBudget;
        }
      } else {
        SpentLess(l0, n0, budget.links, |budget.nodes|, done, visits, limit);
        return PlanFailed;
      }
      SpentLess(l0, n0, budget.links, |budget.nodes|, done, visits, limit);
      if child.PlanFailed? || child.size != link.size {
        return PlanFailed;
      }
      if total + child.size > MAX_SAFE || total + child.size > output {
        return PlanOverBudget;
      }
      PrependMore(chunks, child.chunks, PlanLinks(c, limit, store, links[i + 1..], total + child.size, depth, output));
      chunks := chunks + child.chunks;
      total := total + child.size;
    }
    assert chunks + [] == chunks;
    return Planned(total, chunks);
  }

  lemma SpentLess(l0: nat, n0: nat, l1: nat, n1: nat, a: nat, b: nat, limit: nat)
    requires SpentAtMost(l0, n0, l1, n1, a, limit) && a <= b
    ensures SpentAtMost(l0, n0, l1, n1, b, limit)
  {
    assert b * limit == a * limit + (b - a) * limit;
    assert (b - a) * limit >= 0;
  }

  lemma RoomForFirst(l: nat, n: nat, maxLinks: nat, maxNodes: nat, a: nat, b: nat, limit: nat)
    requires Room(l, n, maxLinks, maxNodes, b, limit) && a <= b
    ensures Room(l, n, maxLinks, maxNodes, a, limit)
  {
    assert b * limit == a * limit + (b - a) * limit;
    assert (b - a) * limit >= 0;
  }

  ghost function Prepend(chunks: seq<Link>, p: Plan): Plan {
    match p
    case Planned(size, rest) => Planned(size, chunks + rest)
    case failed => failed
  }

  lemma PrependMore(a: seq<Link>, b: seq<Link>, p: Plan)
    ensures Prepend(a, Prepend(b, p)) == Prepend(a + b, p)
  {
    if p.Planned? { assert a + (b + p.chunks) == (a + b) + p.chunks; }
  }
}
