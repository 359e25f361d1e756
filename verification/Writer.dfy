/** One run of the hashtree writer, statement by statement. */
module Writer {
  import opened NameOrder
  import opened Manifests
  import opened Shapes
  import opened Grouping
  import opened Tables
  import opened Reader
  import opened FileTrees
  import opened Reachability
  import opened Sums

  datatype Error = InventoryCeiling | UnsafeSize | SizeChanged | ComponentsChanged | ComponentUnavailable
                 | BaseMissing | BaseKindChanged | BaseMalformed | DuplicateRow | UnsafeRoute | NoRoot

  datatype Result<+T> = Ok(value: T) | Err(error: Error) {
    predicate IsFailure() { Err? }
    function PropagateFailure<U>(): Result<U> requires Err? { Err(error) }
    function Extract(): T requires Ok? { value }
  }

  datatype Built = Built(hash: Hash, size: nat, kind: LinkType)

  // ---- What the code reads off a group of links ----

  function LinkCount(l: Link): nat {
    if l.bounds.Some? then l.bounds.value.count else 1
  }

  function LinkFirst(l: Link): Name {
    if l.bounds.Some? then l.bounds.value.first else NameOf(l)
  }

  function LinkLast(l: Link): Name {
    if l.bounds.Some? then l.bounds.value.last else NameOf(l)
  }

  function SumCounts(links: seq<Link>): nat {
    if links == [] then 0 else LinkCount(links[0]) + SumCounts(links[1..])
  }

  /** The kind of manifest a level is flushed into. */
  function ManifestKind(t: TreeKind, level: nat): LinkType {
    if t.FileTree? then File else if level == 0 then Directory else Fanout
  }

  /** The nodes a level of the work table stands for: nothing at level 0, one per row above. */
  ghost predicate LevelRows(c: Codec, t: TreeKind, level: nat, rows: seq<Link>, nodes: seq<Shape>) {
    if level == 0 then
      nodes == [] && forall i :: 0 <= i < |rows| ==> rows[i].bounds.None?
    else
      rows == ChildLinks(c, t, nodes) && forall i :: 0 <= i < |nodes| ==> Flatten(nodes[i]) != []
  }

  /** The node a group of rows becomes. */
  ghost function GroupNode(level: nat, rows: seq<Link>, nodes: seq<Shape>): Shape {
    if level == 0 then Leaf(rows) else Inner(nodes)
  }

  lemma {:induction false} SumCountsPlain(rows: seq<Link>)
    requires forall i :: 0 <= i < |rows| ==> rows[i].bounds.None?
    ensures SumCounts(rows) == |rows|
  {
    if rows != [] { SumCountsPlain(rows[1..]); }
  }

  lemma {:induction false} SumChildLinks(c: Codec, t: TreeKind, nodes: seq<Shape>)
    ensures SumSizes(ChildLinks(c, t, nodes)) == SumSizes(FlattenAll(nodes))
    ensures t.DirTree? ==> SumCounts(ChildLinks(c, t, nodes)) == |FlattenAll(nodes)|
    decreases |nodes|
  {
    if nodes != [] {
      hide NodeManifest;
      var links := ChildLinks(c, t, nodes);
      SumChildLinks(c, t, nodes[1..]);
      assert links[1..] == ChildLinks(c, t, nodes[1..]);
      SumSizesAppend(Flatten(nodes[0]), FlattenAll(nodes[1..]));
    }
  }

  lemma {:induction false} LastOfAll(nodes: seq<Shape>)
    requires nodes != [] && Flatten(nodes[|nodes| - 1]) != []
    ensures FlattenAll(nodes) != []
    ensures FlattenAll(nodes)[|FlattenAll(nodes)| - 1] == Flatten(nodes[|nodes| - 1])[|Flatten(nodes[|nodes| - 1])| - 1]
    decreases |nodes|
  {
    if |nodes| > 1 { LastOfAll(nodes[1..]); }
  }

  /** Sizes, counts and bounds read off the rows are those of the node's flattened list. */
  lemma GroupMeaning(c: Codec, t: TreeKind, level: nat, rows: seq<Link>, nodes: seq<Shape>)
    requires LevelRows(c, t, level, rows, nodes) && rows != []
    ensures var node := GroupNode(level, rows, nodes);
      && Manifest(ManifestKind(t, level), rows) == NodeManifest(c, t, node)
      && SumSizes(rows) == SumSizes(Flatten(node))
      && Flatten(node) != []
      && (t.DirTree? ==> Bounds(SumCounts(rows), LinkFirst(rows[0]), LinkLast(rows[|rows| - 1])) == NodeBounds(node))
  {
    if level == 0 {
      SumCountsPlain(rows);
    } else {
      SumChildLinks(c, t, nodes);
      LastOfAll(nodes);
    }
  }

  /** The nodes of the next level: one per group of rows. */
  ghost function NextNodes(level: nat, rows: seq<Link>, nodes: seq<Shape>, k: nat): seq<Shape>
    requires k > 0
  {
    if level == 0 then Leaves(Groups(rows, k)) else Parents(Groups(nodes, k))
  }

  ghost function NodesIn(level: nat, nodes: seq<Shape>, lo: nat, hi: nat): seq<Shape>
    requires level > 0 ==> lo <= hi <= |nodes|
  {
    if level == 0 then [] else nodes[lo..hi]
  }

  lemma LevelSlice(c: Codec, t: TreeKind, level: nat, rows: seq<Link>, nodes: seq<Shape>, lo: nat, hi: nat)
    requires LevelRows(c, t, level, rows, nodes) && lo <= hi <= |rows|
    ensures level > 0 ==> |nodes| == |rows|
    ensures LevelRows(c, t, level, rows[lo..hi], NodesIn(level, nodes, lo, hi))
  {
    hide NodeLink;
    if level > 0 { assert rows[lo..hi] == ChildLinks(c, t, nodes[lo..hi]); }
  }

  /** One more group of at most `k` rows after full groups is one more node. */
  lemma NextNodesSnoc(level: nat, rows: seq<Link>, nodes: seq<Shape>, done: nat, i: nat, k: nat)
    requires done < i <= |rows| && i - done <= k && done % k == 0 && (level > 0 ==> |nodes| == |rows|)
    ensures NextNodes(level, rows[..i], NodesIn(level, nodes, 0, i), k)
         == NextNodes(level, rows[..done], NodesIn(level, nodes, 0, done), k)
            + [GroupNode(level, rows[done..i], NodesIn(level, nodes, done, i))]
  {
    if level == 0 {
      NextSnoc(rows, done, i, k);
    } else {
      NextSnoc(nodes, done, i, k);
    }
  }

  lemma ChildLinksSnoc(c: Codec, t: TreeKind, ups: seq<Shape>, node: Shape)
    ensures ChildLinks(c, t, ups + [node]) == ChildLinks(c, t, ups) + [NodeLink(c, t, node)]
  {
    hide NodeLink;
  }

  // ---- The inventory ----

  ghost function Sizes(inventory: Store): map<Hash, nat> {
    map h | h in inventory :: |inventory[h]|
  }

  /** Every blob is filed under its digest, and `total` is the bytes of all of them. */
  ghost predicate Ledger(c: Codec, inventory: Store, total: nat) {
    (forall h :: h in inventory ==> c.digest(inventory[h]) == h) && total == SumOf(Sizes(inventory))
  }

  lemma LedgerInsert(c: Codec, inventory: Store, total: nat, bytes: Bytes)
    requires Ledger(c, inventory, total) && c.digest(bytes) !in inventory
    ensures Ledger(c, inventory[c.digest(bytes) := bytes], total + |bytes|)
  {
    var hash := c.digest(bytes);
    SumInsert(Sizes(inventory), hash, |bytes|);
    assert Sizes(inventory[hash := bytes]) == Sizes(inventory)[hash := |bytes|];
  }

  /** A blob whose links are already referenced keeps the references closed. */
  lemma RefsJoin(c: Codec, inventory: Store, refs: set<Ref>, bytes: Bytes, kind: LinkType)
    requires Faithful(c) && ClosedRefs(c, inventory, refs)
    requires forall h :: h in inventory ==> c.digest(inventory[h]) == h
    requires kind != Raw ==>
               forall m :: c.decode(bytes) == Some(m) ==> forall i :: 0 <= i < |m.links| ==> RefOf(m.links[i]) in refs
    ensures Extends(inventory, inventory[c.digest(bytes) := bytes])
    ensures ClosedRefs(c, inventory[c.digest(bytes) := bytes], refs + {Ref(c.digest(bytes), kind)})
    ensures c.digest(bytes) in inventory ==> inventory[c.digest(bytes) := bytes] == inventory
  {
    hide ClosedRefs;
    var hash, more := c.digest(bytes), inventory[c.digest(bytes) := bytes];
    ClosedExtends(c, inventory, more, refs);
    ClosedJoin(c, more, refs, Ref(hash, kind));
  }

  /** The inventory is part of `plan`, and the ceilings leave room for all of it. */
  ghost predicate Affordable(inventory: Store, plan: Store, maxBlobs: nat, maxBytes: nat) {
    Extends(inventory, plan) && |plan| <= maxBlobs && SumOf(Sizes(plan)) <= maxBytes
  }

  /** There is room for one more blob of the plan. */
  lemma RoomFor(c: Codec, inventory: Store, total: nat, plan: Store, bytes: Bytes, maxBlobs: nat, maxBytes: nat)
    requires Ledger(c, inventory, total) && Affordable(inventory, plan, maxBlobs, maxBytes)
    requires HoldsBlob(c, plan, bytes) && c.digest(bytes) !in inventory
    ensures |inventory| + 1 <= maxBlobs && total + |bytes| <= maxBytes
    ensures Affordable(inventory[c.digest(bytes) := bytes], plan, maxBlobs, maxBytes)
  {
    hide SumOf, Sizes;
    var more := inventory[c.digest(bytes) := bytes];
    LedgerInsert(c, inventory, total, bytes);
    WithinPlan(more, plan);
    assert more.Keys == inventory.Keys + {c.digest(bytes)};
  }

  lemma WithinPlan(inventory: Store, plan: Store)
    requires Extends(inventory, plan)
    ensures |inventory| <= |plan| && SumOf(Sizes(inventory)) <= SumOf(Sizes(plan))
  {
    hide SumOf;
    SumWithin(Sizes(inventory), Sizes(plan));
    assert Sizes(inventory).Keys == inventory.Keys && Sizes(plan).Keys == plan.Keys;
  }

  /** A node whose manifests are part of the plan and whose bytes can be counted. */
  ghost predicate Foreseen(c: Codec, t: TreeKind, plan: Store, node: Shape) {
    Present(c, t, plan, node) && SumSizes(Flatten(node)) <= MAX_SAFE
  }

  ghost predicate AllForeseen(c: Codec, t: TreeKind, plan: Store, nodes: seq<Shape>) {
    forall i :: 0 <= i < |nodes| ==> Foreseen(c, t, plan, nodes[i])
  }

  lemma {:induction false} PartSum(nodes: seq<Shape>, i: nat)
    requires i < |nodes|
    ensures SumSizes(Flatten(nodes[i])) <= SumSizes(FlattenAll(nodes))
    decreases |nodes|
  {
    SumSizesAppend(Flatten(nodes[0]), FlattenAll(nodes[1..]));
    if i > 0 { PartSum(nodes[1..], i - 1); }
  }

  lemma ForeseenChild(c: Codec, t: TreeKind, plan: Store, nodes: seq<Shape>, i: nat)
    requires Foreseen(c, t, plan, Inner(nodes)) && i < |nodes|
    ensures Foreseen(c, t, plan, nodes[i])
  {
    hide NodeHash, NodeManifest;
    PartSum(nodes, i);
    assert Inner(nodes).children[i] == nodes[i];
  }

  /** Whatever joins into a foreseen node is foreseen. */
  lemma {:induction false} JoinForeseen(c: Codec, t: TreeKind, plan: Store, nodes: seq<Shape>, k: nat)
    requires k >= 2 && Foreseen(c, t, plan, Join(nodes, k))
    ensures AllForeseen(c, t, plan, nodes)
    decreases |nodes|
  {
    hide Foreseen, Groups;
    if |nodes| > k {
      GroupsShrink(nodes, k);
      JoinForeseen(c, t, plan, Parents(Groups(nodes, k)), k);
    }
    forall x | 0 <= x < |nodes| ensures Foreseen(c, t, plan, nodes[x]) {
      if |nodes| <= k {
        ForeseenChild(c, t, plan, nodes, x);
      } else {
        var i := InSomeGroup(nodes, k, x);
        var group := Groups(nodes, k)[i];
        var j :| 0 <= j < |group| && group[j] == nodes[x];
        assert Parents(Groups(nodes, k))[i] == Inner(group);
        ForeseenChild(c, t, plan, group, j);
      }
    }
  }

  // ---- The run ----

  class WriterRun {
    const c: Codec
    const k: nat
    const maxBlobs: nat
    const maxBytes: nat
    /** The run's inventory: every blob it registered or persisted, with its bytes. */
    var inventory: Store
    var total: nat
    var maxBuffered: nat
    /** What the inventory's blobs are linked as. */
    ghost var refs: set<Ref>
    /** Blobs a caller expects the run to end up with, to say when the ceilings are no obstacle. */
    ghost const plan: Store

    ghost predicate Valid()
      reads this
    {
      && k >= 2 && Faithful(c) && maxBuffered <= k
      && Ledger(c, inventory, total) && total <= maxBytes && |inventory| <= maxBlobs
      && ClosedRefs(c, inventory, refs)
    }

    /** The ceilings have room for the whole plan. */
    ghost predicate Fits()
      reads this
    {
      Affordable(inventory, plan, maxBlobs, maxBytes)
    }

    constructor (c: Codec, k: nat, maxBlobs: nat, maxBytes: nat, ghost plan: Store)
      requires Faithful(c) && k >= 2
      ensures Valid() && inventory == map[] && refs == {} && this.plan == plan
      ensures Fits() <==> |plan| <= maxBlobs && SumOf(Sizes(plan)) <= maxBytes
      ensures this.c == c && this.k == k && this.maxBlobs == maxBlobs && this.maxBytes == maxBytes
    {
      this.c, this.k, this.maxBlobs, this.maxBytes := c, k, maxBlobs, maxBytes;
      inventory, total, maxBuffered := map[], 0, 0;
      refs := {};
      this.plan := plan;
      new;
      SumEmpty(Sizes(inventory));
    }

    /** Register a blob, or find it registered; `kind` is what it will be linked as. */
    method Persist(bytes: Bytes, ghost kind: LinkType) returns (r: Result<Hash>)
      requires Valid()
      requires kind != Raw ==>
                 forall m :: c.decode(bytes) == Some(m) ==> forall i :: 0 <= i < |m.links| ==> RefOf(m.links[i]) in refs
      modifies this
      ensures Valid() && Extends(old(inventory), inventory) && old(refs) <= refs
      ensures r.Ok? ==> r.value == c.digest(bytes) && HoldsBlob(c, inventory, bytes) && Ref(r.value, kind) in refs
      ensures r.Ok? ==> inventory == old(inventory)[c.digest(bytes) := bytes]
      ensures r.Err? ==> inventory == old(inventory) && total == old(total)
      ensures r.Err? <==>
                c.digest(bytes) !in old(inventory) && (|old(inventory)| + 1 > maxBlobs || old(total) + |bytes| > maxBytes)
      ensures maxBuffered == old(maxBuffered)
      ensures old(Fits()) && HoldsBlob(c, plan, bytes) ==> r.Ok? && Fits()
    {
      hide ClosedRefs, SumOf, Affordable;
      var hash := c.digest(bytes);
      if hash !in inventory {
        if Fits() && HoldsBlob(c, plan, bytes) { RoomFor(c, inventory, total, plan, bytes, maxBlobs, maxBytes); }
        if |inventory| + 1 > maxBlobs || total + |bytes| > maxBytes {
          return Err(InventoryCeiling);
        }
        LedgerInsert(c, inventory, total, bytes);
        total := total + |bytes|;
        inventory := inventory[hash := bytes];
      }
      RefsJoin(c, old(inventory), refs, bytes, kind);
      assert inventory == old(inventory)[hash := bytes];
      refs := refs + {Ref(hash, kind)};
      return Ok(hash);
    }

    /** Take over the references of blobs that are already registered. */
    ghost method Adopt(blobs: Store, more: set<Ref>)
      requires Valid() && Extends(blobs, inventory) && ClosedRefs(c, blobs, more)
      modifies this`refs
      ensures Valid() && refs == old(refs) + more && Fits() == old(Fits())
    {
      ClosedExtends(c, blobs, inventory, more);
      refs := refs + more;
    }

    /** `logicalSize`: add up represented bytes, refusing unsafe integers. */
    static method LogicalSize(links: seq<Link>) returns (r: Result<nat>)
      ensures r.Ok? <==> SumSizes(links) <= MAX_SAFE
      ensures r.Ok? ==> r.value == SumSizes(links)
    {
      var sum := 0;
      for i := 0 to |links|
        invariant sum == SumSizes(links[..i]) <= MAX_SAFE
      {
        SumSizesAppend(links[..i], [links[i]]);
        assert links[..i + 1] == links[..i] + [links[i]];
        assert [links[i]][1..] == [];
        if sum + links[i].size > MAX_SAFE {
          SumSizesAppend(links[..i + 1], links[i + 1..]);
          assert links == links[..i + 1] + links[i + 1..];
          return Err(UnsafeSize);
        }
        sum := sum + links[i].size;
      }
      assert links[..|links|] == links;
      return Ok(sum);
    }

    /** Encode one manifest of the level and persist it. */
    method PersistManifest(t: TreeKind, level: nat, rows: seq<Link>, ghost node: Shape) returns (r: Result<Built>)
      requires Valid()
      requires Manifest(ManifestKind(t, level), rows) == NodeManifest(c, t, node)
      requires forall i :: 0 <= i < |rows| ==> RefOf(rows[i]) in refs
      requires node.Inner? ==> forall i :: 0 <= i < |node.children| ==> Present(c, t, inventory, node.children[i])
      requires SumSizes(rows) == SumSizes(Flatten(node))
      modifies this
      ensures Valid() && Extends(old(inventory), inventory) && old(refs) <= refs && maxBuffered == old(maxBuffered)
      ensures r.Ok? ==>
        && r.value == Built(NodeHash(c, t, node), SumSizes(Flatten(node)), NodeKind(t, node))
        && r.value.size <= MAX_SAFE
        && Present(c, t, inventory, node) && Ref(r.value.hash, r.value.kind) in refs
      ensures old(Fits()) && Foreseen(c, t, plan, node) ==> r.Ok? && Fits()
    {
      hide WriterRun.Fits;
      var m := Manifest(ManifestKind(t, level), rows);
      var hash :- Persist(c.encode(m), m.kind);
      ghost var now := inventory;
      if node.Inner? {
        forall i | 0 <= i < |node.children| ensures Present(c, t, now, node.children[i]) {
          PresentExtends(c, t, old(inventory), now, node.children[i]);
        }
      }
      var size :- LogicalSize(rows);
      return Ok(Built(hash, size, m.kind));
    }

    /** `flushGroup`: one link of the next level. */
    method FlushGroup(t: TreeKind, level: nat, rows: seq<Link>, ghost nodes: seq<Shape>) returns (r: Result<Link>)
      requires Valid() && rows != [] && LevelRows(c, t, level, rows, nodes)
      requires forall i :: 0 <= i < |rows| ==> RefOf(rows[i]) in refs
      requires forall i :: 0 <= i < |nodes| ==> Present(c, t, inventory, nodes[i])
      modifies this
      ensures Valid() && Extends(old(inventory), inventory) && old(refs) <= refs && maxBuffered == old(maxBuffered)
      ensures var node := GroupNode(level, rows, nodes);
        && Flatten(node) != []
        && (r.Ok? ==>
          && r.value == NodeLink(c, t, node) && RefOf(r.value) in refs
          && Present(c, t, inventory, node))
      ensures old(Fits()) && Foreseen(c, t, plan, GroupNode(level, rows, nodes)) ==> r.Ok? && Fits()
    {
      hide WriterRun.Fits, Foreseen;
      ghost var node := GroupNode(level, rows, nodes);
      GroupMeaning(c, t, level, rows, nodes);
      var built :- PersistManifest(t, level, rows, node);
      var bounds := if t.FileTree? then None
                    else Some(Bounds(SumCounts(rows), LinkFirst(rows[0]), LinkLast(rows[|rows| - 1])));
      return Ok(Link(built.hash, built.size, built.kind, None, bounds));
    }

    /** Flush the buffered rows `rows[done..i]` behind the links already made. */
    method FlushInto(t: TreeKind, level: nat, group: seq<Link>, next: seq<Link>,
                     ghost rows: seq<Link>, ghost nodes: seq<Shape>, ghost done: nat, ghost i: nat)
      returns (r: Result<seq<Link>>)
      requires Valid() && LevelRows(c, t, level, rows, nodes) && (level > 0 ==> |nodes| == |rows|)
      requires done < i <= |rows| && i - done <= k && Whole(done, k) && group == rows[done..i]
      requires RefsIn(rows, refs)
      requires AllPresent(c, t, inventory, nodes)
      requires Progress(c, t, inventory, refs, level, rows, nodes, done, k, next)
      modifies this
      ensures Valid() && Extends(old(inventory), inventory) && old(refs) <= refs && maxBuffered == old(maxBuffered)
      ensures AllPresent(c, t, inventory, nodes)
      ensures r.Ok? ==> Progress(c, t, inventory, refs, level, rows, nodes, i, k, r.value)
      ensures old(Fits()) && Foreseen(c, t, plan, GroupNode(level, group, NodesIn(level, nodes, done, i))) ==> r.Ok? && Fits()
    {
      hide WriterRun.Fits, Foreseen, GroupNode, NodesIn, Faithful, ClosedRefs, Ledger, Present, NodeLink, Groups, Flatten, NextNodes, LevelRows;
      ghost var part := NodesIn(level, nodes, done, i);
      LevelSlice(c, t, level, rows, nodes, done, i);
      PartPresent(c, t, inventory, level, nodes, done, i);
      var flushed := FlushGroup(t, level, group, part);
      AllPresentExtends(c, t, old(inventory), inventory, nodes);
      if flushed.Err? {
        return Err(flushed.error);
      }
      ProgressSnoc(c, t, old(inventory), inventory, old(refs), refs, level, rows, nodes, done, i, k, next, flushed.value);
      return Ok(next + [flushed.value]);
    }

    /** The most links held at once. */
    method NoteBuffered(n: nat)
      requires Valid() && n <= k
      modifies this`maxBuffered
      ensures Valid() && maxBuffered >= n && Fits() == old(Fits())
    {
      if maxBuffered < n {
        maxBuffered := n;
      }
    }

    /** One pass of `collapse` over a level: rows are buffered, at most `k` at a time, and
        every full buffer, and what is left at the end, becomes one link of the next level. */
    method GroupLevel(t: TreeKind, level: nat, rows: seq<Link>, ghost nodes: seq<Shape>) returns (r: Result<seq<Link>>)
      requires Valid() && LevelRows(c, t, level, rows, nodes)
      requires forall i :: 0 <= i < |rows| ==> RefOf(rows[i]) in refs
      requires AllPresent(c, t, inventory, nodes)
      modifies this
      ensures Valid() && Extends(old(inventory), inventory) && old(refs) <= refs
      ensures r.Ok? ==> Progress(c, t, inventory, refs, level, rows, nodes, |rows|, k, r.value)
      ensures old(Fits()) && AllForeseen(c, t, plan, NextNodes(level, rows, nodes, k)) ==> r.Ok? && Fits()
    {
      hide WriterRun.Fits, AllForeseen, Foreseen, GroupNode, NodesIn;
      hide WriterRun.Valid, Present, NodeLink, Groups, Flatten, NextNodes, LevelRows, Progress, AllPresent, Extends, RefOf, Whole, Buffering;
      var next: seq<Link> := [];
      var group: seq<Link> := [];
      ghost var done: nat := 0;
      StartLevel(t, level, rows, nodes);
      ValidLimits();
      ghost var roomy := Fits() && AllForeseen(c, t, plan, NextNodes(level, rows, nodes, k));
      for i := 0 to |rows|
        invariant Valid() && Extends(old(inventory), inventory) && old(refs) <= refs
        invariant Buffering(c, t, inventory, refs, level, rows, nodes, k, group, next, done, i)
        invariant roomy ==> Fits()
      {
        BufferingMore(c, t, inventory, refs, level, rows, nodes, k, group, next, done, i);
        group := group + [rows[i]];
        NoteBuffered(|group|);
        if |group| == k {
          ghost var before := inventory;
          var flushed := FlushFull(t, level, group, next, rows, nodes, done, i);
          ExtendsTrans(old(inventory), before, inventory);
          next :- flushed;
          group, done := [], i + 1;
        }
      }
      BufferingParts(c, t, inventory, refs, level, rows, nodes, k, group, next, done, |rows|);
      if group != [] {
        ghost var before := inventory;
        if roomy { GroupForeseen(c, t, plan, level, rows, nodes, k, done, |rows|); }
        r := FlushInto(t, level, group, next, rows, nodes, done, |rows|);
        ExtendsTrans(old(inventory), before, inventory);
        return;
      }
      return Ok(next);
    }

    lemma ValidLimits()
      requires Valid()
      ensures k >= 2
    {
    }

    lemma StartLevel(t: TreeKind, level: nat, rows: seq<Link>, nodes: seq<Shape>)
      requires Valid() && LevelRows(c, t, level, rows, nodes)
      requires forall i :: 0 <= i < |rows| ==> RefOf(rows[i]) in refs
      requires AllPresent(c, t, inventory, nodes)
      ensures Extends(inventory, inventory) && Buffering(c, t, inventory, refs, level, rows, nodes, k, [], [], 0, 0)
    {
      hide LevelRows, AllPresent, Progress;
      LevelSlice(c, t, level, rows, nodes, 0, |rows|);
      ProgressStart(c, t, inventory, refs, level, rows, nodes, k);
      WholeStart(k);
    }

    /** Flush the buffer that the row at `i` fills. */
    method FlushFull(t: TreeKind, level: nat, group: seq<Link>, next: seq<Link>,
                     ghost rows: seq<Link>, ghost nodes: seq<Shape>, ghost done: nat, ghost i: nat)
      returns (r: Result<seq<Link>>)
      requires Valid() && i < |rows| && group != [] && |group| == k && group[|group| - 1] == rows[i]
      requires Buffering(c, t, inventory, refs, level, rows, nodes, k, group[..|group| - 1], next, done, i)
      modifies this
      ensures Valid() && Extends(old(inventory), inventory) && old(refs) <= refs
      ensures r.Ok? ==> Buffering(c, t, inventory, refs, level, rows, nodes, k, [], r.value, i + 1, i + 1)
      ensures old(Fits()) && AllForeseen(c, t, plan, NextNodes(level, rows, nodes, k)) ==> r.Ok? && Fits()
    {
      hide WriterRun.Fits, AllForeseen, Foreseen, GroupNode, NodesIn, NextNodes;
      hide WriterRun.Valid, LevelRows, Progress, AllPresent, Extends, RefsIn, Whole, Buffering;
      BufferingParts(c, t, inventory, refs, level, rows, nodes, k, group[..|group| - 1], next, done, i);
      assert group == rows[done..i + 1];
      if AllForeseen(c, t, plan, NextNodes(level, rows, nodes, k)) {
        GroupForeseen(c, t, plan, level, rows, nodes, k, done, i + 1);
      }
      r := FlushInto(t, level, group, next, rows, nodes, done, i + 1);
      if r.Ok? {
        WholeNext(done, k);
        RefsInMore(rows, old(refs), refs);
        BufferingMade(c, t, inventory, refs, level, rows, nodes, k, [], r.value, i + 1, i + 1);
      }
    }

    /** `collapse`: group level by level until one manifest is enough. */
    method CollapseRows(t: TreeKind, items: seq<Link>) returns (r: Result<Built>)
      requires Valid() && forall i :: 0 <= i < |items| ==> items[i].bounds.None? && RefOf(items[i]) in refs
      modifies this
      ensures Valid() && Extends(old(inventory), inventory) && old(refs) <= refs
      ensures r.Ok? ==>
        var s := Collapse(items, k);
        && r.value == Built(NodeHash(c, t, s), SumSizes(items), NodeKind(t, s)) && r.value.size <= MAX_SAFE
        && Present(c, t, inventory, s) && Ref(r.value.hash, r.value.kind) in refs
      ensures old(Fits()) && Foreseen(c, t, plan, Collapse(items, k)) ==> r.Ok? && Fits()
    {
      hide WriterRun.Fits, Foreseen, Faithful, ClosedRefs, Ledger, Present, NodeLink, Groups, Flatten, NextNodes, NodeHash, NodeKind;
      var level, rows := 0, items;
      ghost var nodes: seq<Shape> := [];
      ghost var roomy := Fits() && Foreseen(c, t, plan, Collapse(items, k));
      while |rows| > k
        invariant Valid() && Extends(old(inventory), inventory) && old(refs) <= refs
        invariant LevelRows(c, t, level, rows, nodes) && (forall i :: 0 <= i < |rows| ==> RefOf(rows[i]) in refs)
        invariant AllPresent(c, t, inventory, nodes)
        invariant if level == 0 then rows == items else |rows| == |nodes| && CollapsesTo(items, nodes, k)
        invariant roomy ==> Fits()
        decreases |rows|
      {
        if roomy { NextForeseen(c, t, plan, level, items, rows, nodes, k); }
        var next :- GroupLevel(t, level, rows, nodes);
        NextLevel(c, t, inventory, refs, level, items, rows, nodes, k, next);
        nodes := NextNodes(level, rows, nodes, k);
        rows := next;
        level := level + 1;
      }
      NoteBuffered(|rows|);
      ghost var node := GroupNode(level, rows, nodes);
      LastManifest(c, t, level, items, rows, nodes, k);
      r := PersistManifest(t, level, rows, node);
    }
  }

  ghost predicate AllPresent(c: Codec, t: TreeKind, store: Store, nodes: seq<Shape>) {
    forall i :: 0 <= i < |nodes| ==> Present(c, t, store, nodes[i])
  }

  lemma AllPresentExtends(c: Codec, t: TreeKind, a: Store, b: Store, nodes: seq<Shape>)
    requires AllPresent(c, t, a, nodes) && Extends(a, b)
    ensures AllPresent(c, t, b, nodes)
  {
    hide Present, Extends;
    forall i | 0 <= i < |nodes| ensures Present(c, t, b, nodes[i]) {
      PresentExtends(c, t, a, b, nodes[i]);
    }
  }

  lemma PartPresent(c: Codec, t: TreeKind, store: Store, level: nat, nodes: seq<Shape>, lo: nat, hi: nat)
    requires AllPresent(c, t, store, nodes) && (level > 0 ==> lo <= hi <= |nodes|)
    ensures AllPresent(c, t, store, NodesIn(level, nodes, lo, hi))
  {
    hide Present;
  }

  /** The first `done` rows have been flushed into `next`. */
  ghost predicate Progress(c: Codec, t: TreeKind, store: Store, refs: set<Ref>, level: nat, rows: seq<Link>,
                           nodes: seq<Shape>, done: nat, k: nat, next: seq<Link>)
    requires k > 0 && done <= |rows| && (level > 0 ==> |nodes| == |rows|)
  {
    var ups := NextNodes(level, rows[..done], NodesIn(level, nodes, 0, done), k);
    && LevelRows(c, t, level + 1, next, ups)
    && (forall j :: 0 <= j < |next| ==> RefOf(next[j]) in refs)
    && AllPresent(c, t, store, ups)
  }

  /** Every row's blob is referenced. */
  ghost predicate RefsIn(rows: seq<Link>, refs: set<Ref>) {
    forall j :: 0 <= j < |rows| ==> RefOf(rows[j]) in refs
  }

  lemma RefsInMore(rows: seq<Link>, refs: set<Ref>, more: set<Ref>)
    requires RefsIn(rows, refs) && refs <= more
    ensures RefsIn(rows, more)
  {
  }

  /** In the middle of a level: `done` rows are grouped and those up to `i` are buffered, fewer
      than make a group. */
  ghost predicate Buffering(c: Codec, t: TreeKind, store: Store, refs: set<Ref>, level: nat, rows: seq<Link>, nodes: seq<Shape>, k: nat,
                            group: seq<Link>, next: seq<Link>, done: nat, i: nat) {
    && LevelRows(c, t, level, rows, nodes) && (level > 0 ==> |nodes| == |rows|) && AllPresent(c, t, store, nodes)
    && RefsIn(rows, refs)
    && done <= i <= |rows| && group == rows[done..i] && |group| < k && Whole(done, k)
    && Progress(c, t, store, refs, level, rows, nodes, done, k, next)
  }

  lemma BufferingParts(c: Codec, t: TreeKind, store: Store, refs: set<Ref>, level: nat, rows: seq<Link>, nodes: seq<Shape>, k: nat,
                       group: seq<Link>, next: seq<Link>, done: nat, i: nat)
    requires Buffering(c, t, store, refs, level, rows, nodes, k, group, next, done, i)
    ensures LevelRows(c, t, level, rows, nodes) && (level > 0 ==> |nodes| == |rows|) && AllPresent(c, t, store, nodes)
    ensures RefsIn(rows, refs)
    ensures k > 0 && done <= i <= |rows| && group == rows[done..i] && |group| < k && Whole(done, k)
    ensures Progress(c, t, store, refs, level, rows, nodes, done, k, next)
    ensures group == [] ==> done == i
  {
    hide LevelRows, AllPresent, Progress, RefOf;
  }

  /** One more row in the buffer, unless it fills it. */
  lemma BufferingMore(c: Codec, t: TreeKind, store: Store, refs: set<Ref>, level: nat, rows: seq<Link>, nodes: seq<Shape>, k: nat,
                      group: seq<Link>, next: seq<Link>, done: nat, i: nat)
    requires Buffering(c, t, store, refs, level, rows, nodes, k, group, next, done, i) && i < |rows|
    ensures |group| + 1 <= k && (group + [rows[i]])[..|group|] == group
    ensures |group| + 1 < k ==> Buffering(c, t, store, refs, level, rows, nodes, k, group + [rows[i]], next, done, i + 1)
  {
    hide LevelRows, AllPresent, Progress, RefsIn;
  }

  lemma BufferingMade(c: Codec, t: TreeKind, store: Store, refs: set<Ref>, level: nat, rows: seq<Link>, nodes: seq<Shape>, k: nat,
                      group: seq<Link>, next: seq<Link>, done: nat, i: nat)
    requires LevelRows(c, t, level, rows, nodes) && (level > 0 ==> |nodes| == |rows|) && AllPresent(c, t, store, nodes)
    requires RefsIn(rows, refs)
    requires done <= i <= |rows| && group == rows[done..i] && |group| < k && Whole(done, k)
    requires Progress(c, t, store, refs, level, rows, nodes, done, k, next)
    ensures Buffering(c, t, store, refs, level, rows, nodes, k, group, next, done, i)
  {
    hide LevelRows, AllPresent, Progress, RefOf;
  }

  lemma ProgressStart(c: Codec, t: TreeKind, store: Store, refs: set<Ref>, level: nat, rows: seq<Link>, nodes: seq<Shape>, k: nat)
    requires k > 0 && (level > 0 ==> |nodes| == |rows|)
    ensures Progress(c, t, store, refs, level, rows, nodes, 0, k, [])
  {
  }

  lemma ProgressSnoc(c: Codec, t: TreeKind, a: Store, b: Store, refs: set<Ref>, refs': set<Ref>, level: nat, rows: seq<Link>,
                     nodes: seq<Shape>, done: nat, i: nat, k: nat, next: seq<Link>, link: Link)
    requires done < i <= |rows| && i - done <= k && done % k == 0 && (level > 0 ==> |nodes| == |rows|)
    requires Progress(c, t, a, refs, level, rows, nodes, done, k, next) && Extends(a, b) && refs <= refs'
    requires var node := GroupNode(level, rows[done..i], NodesIn(level, nodes, done, i));
             Flatten(node) != [] && link == NodeLink(c, t, node) && RefOf(link) in refs' && Present(c, t, b, node)
    ensures Progress(c, t, b, refs', level, rows, nodes, i, k, next + [link])
  {
    hide Present, NodeLink, Groups, Flatten, NextNodes, Extends, GroupNode;
    ghost var ups := NextNodes(level, rows[..done], NodesIn(level, nodes, 0, done), k);
    ghost var node := GroupNode(level, rows[done..i], NodesIn(level, nodes, done, i));
    NextNodesSnoc(level, rows, nodes, done, i, k);
    ChildLinksSnoc(c, t, ups, node);
    AllPresentExtends(c, t, a, b, ups);
  }

  /** The nodes of the current level still collapse to the node of the whole list. */
  ghost predicate CollapsesTo(items: seq<Link>, nodes: seq<Shape>, k: nat) {
    k >= 2 && |items| > k && Collapse(items, k) == Join(nodes, k)
  }

  /** The nodes of the next level are foreseen where the node of the whole list is. */
  lemma NextForeseen(c: Codec, t: TreeKind, plan: Store, level: nat, items: seq<Link>, rows: seq<Link>, nodes: seq<Shape>, k: nat)
    requires 2 <= k < |rows| && (level > 0 ==> |nodes| == |rows|)
    requires if level == 0 then rows == items else CollapsesTo(items, nodes, k)
    requires Foreseen(c, t, plan, Collapse(items, k))
    ensures AllForeseen(c, t, plan, NextNodes(level, rows, nodes, k))
  {
    hide Foreseen, AllForeseen, Groups;
    if level == 0 {
      GroupsShrink(rows, k);
    } else {
      GroupsShrink(nodes, k);
    }
    JoinForeseen(c, t, plan, NextNodes(level, rows, nodes, k), k);
  }

  /** Every group that is flushed is a node of the next level. */
  lemma GroupForeseen(c: Codec, t: TreeKind, plan: Store, level: nat, rows: seq<Link>, nodes: seq<Shape>, k: nat, done: nat, i: nat)
    requires done < i <= |rows| && i - done <= k && Whole(done, k) && (i - done == k || i == |rows|)
    requires (level > 0 ==> |nodes| == |rows|) && AllForeseen(c, t, plan, NextNodes(level, rows, nodes, k))
    ensures Foreseen(c, t, plan, GroupNode(level, rows[done..i], NodesIn(level, nodes, done, i)))
  {
    hide Foreseen, Groups;
    if level == 0 {
      GroupAmong(rows, done, i, k);
      var j :| 0 <= j < |Groups(rows, k)| && Groups(rows, k)[j] == rows[done..i];
      assert NextNodes(level, rows, nodes, k)[j] == Leaf(rows[done..i]);
    } else {
      GroupAmong(nodes, done, i, k);
      var j :| 0 <= j < |Groups(nodes, k)| && Groups(nodes, k)[j] == nodes[done..i];
      assert NextNodes(level, rows, nodes, k)[j] == Inner(nodes[done..i]);
    }
  }

  lemma NextLevel(c: Codec, t: TreeKind, store: Store, refs: set<Ref>, level: nat, items: seq<Link>, rows: seq<Link>,
                  nodes: seq<Shape>, k: nat, next: seq<Link>)
    requires 2 <= k < |rows| && (level > 0 ==> |nodes| == |rows|)
    requires if level == 0 then rows == items else CollapsesTo(items, nodes, k)
    requires Progress(c, t, store, refs, level, rows, nodes, |rows|, k, next)
    ensures var ups := NextNodes(level, rows, nodes, k);
      && LevelRows(c, t, level + 1, next, ups) && AllPresent(c, t, store, ups)
      && (forall j :: 0 <= j < |next| ==> RefOf(next[j]) in refs)
      && |next| == |ups| < |rows| && CollapsesTo(items, ups, k)
  {
    hide Present, NodeLink, Groups, Flatten;
    assert rows[..|rows|] == rows;
    if level == 0 {
      GroupsShrink(rows, k);
    } else {
      assert nodes[0..|nodes|] == nodes;
      GroupsShrink(nodes, k);
    }
  }

  lemma LastManifest(c: Codec, t: TreeKind, level: nat, items: seq<Link>, rows: seq<Link>, nodes: seq<Shape>, k: nat)
    requires k >= 2 && |rows| <= k && LevelRows(c, t, level, rows, nodes)
    requires if level == 0 then rows == items else |rows| == |nodes| && CollapsesTo(items, nodes, k)
    ensures var node := GroupNode(level, rows, nodes);
      && node == Collapse(items, k) && Flatten(node) == items
      && Manifest(ManifestKind(t, level), rows) == NodeManifest(c, t, node)
      && SumSizes(rows) == SumSizes(items)
      && (node.Inner? ==> node.children == nodes)
  {
    hide NodeLink;
    FlattenCollapse(items, k);
    if level > 0 { SumChildLinks(c, t, nodes); }
  }

  lemma {:induction false} PresentExtends(c: Codec, t: TreeKind, a: Store, b: Store, s: Shape)
    requires Present(c, t, a, s) && Extends(a, b)
    ensures Present(c, t, b, s)
    decreases s
  {
    hide NodeHash, NodeManifest;
    if s.Inner? {
      forall i | 0 <= i < |s.children| ensures Present(c, t, b, s.children[i]) {
        PresentExtends(c, t, a, b, s.children[i]);
      }
    }
  }
}
