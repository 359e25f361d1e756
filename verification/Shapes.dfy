/** The multi-level manifests a list of links collapses into.

    A `Shape` is the inductive form of a node and everything below it: a leaf manifest holds the
    listed links themselves, an inner manifest holds one link per child node.  File trees and
    directory trees collapse the same way; only the manifest kinds and link metadata differ.
 */
module Shapes {
  import opened NameOrder
  import opened Manifests
  import opened Grouping

  datatype Shape = Leaf(items: seq<Link>) | Inner(children: seq<Shape>)
  datatype TreeKind = FileTree | DirTree

  // ---- What a node stands for ----

  function Flatten(s: Shape): seq<Link>
    decreases s
  {
    match s
    case Leaf(items) => items
    case Inner(children) => FlattenAll(children)
  }

  function FlattenAll(ss: seq<Shape>): seq<Link>
    decreases ss
  {
    if ss == [] then [] else Flatten(ss[0]) + FlattenAll(ss[1..])
  }

  function NodeKind(t: TreeKind, s: Shape): LinkType {
    match t
    case FileTree => File
    case DirTree => if s.Leaf? then Directory else Fanout
  }

  function NameOf(l: Link): Name {
    if l.name.Some? then l.name.value else ""
  }

  /** The bounds of a directory node: how many entries it lists, the first and the last. */
  function NodeBounds(s: Shape): Bounds {
    var all := Flatten(s);
    if all == [] then Bounds(0, "", "")
    else Bounds(|all|, NameOf(all[0]), NameOf(all[|all| - 1]))
  }

  function NodeManifest(c: Codec, t: TreeKind, s: Shape): Manifest
    decreases s, 1
  {
    Manifest(NodeKind(t, s), match s case Leaf(items) => items case Inner(children) => ChildLinks(c, t, children))
  }

  function ChildLinks(c: Codec, t: TreeKind, ss: seq<Shape>): (r: seq<Link>)
    ensures |r| == |ss|
    ensures forall i :: 0 <= i < |ss| ==> r[i] == NodeLink(c, t, ss[i])
    decreases ss
  {
    if ss == [] then [] else [NodeLink(c, t, ss[0])] + ChildLinks(c, t, ss[1..])
  }

  function NodeHash(c: Codec, t: TreeKind, s: Shape): Hash {
    Address(c, NodeManifest(c, t, s))
  }

  /** The link a parent holds for a node: its address, the bytes it represents, its kind and,
      in directories, its bounds. */
  function NodeLink(c: Codec, t: TreeKind, s: Shape): Link
    decreases s, 2
  {
    Link(Address(c, NodeManifest(c, t, s)), SumSizes(Flatten(s)), NodeKind(t, s), None,
         if t.DirTree? then Some(NodeBounds(s)) else None)
  }

  // ---- Collapsing ----

  function Leaves(gs: seq<seq<Link>>): seq<Shape> {
    seq(|gs|, i requires 0 <= i < |gs| => Leaf(gs[i]))
  }

  function Parents(gs: seq<seq<Shape>>): seq<Shape> {
    seq(|gs|, i requires 0 <= i < |gs| => Inner(gs[i]))
  }

  /** Levels above the leaves: group until at most `k` nodes are left, then link them. */
  function Join(ss: seq<Shape>, k: nat): Shape
    requires k >= 2
    decreases |ss|
  {
    if |ss| <= k then Inner(ss)
    else
      GroupsShrink(ss, k);
      Join(Parents(Groups(ss, k)), k)
  }

  /** The node that lists `items` with at most `k` links in every manifest. */
  function Collapse(items: seq<Link>, k: nat): Shape
    requires k >= 2
  {
    if |items| <= k then Leaf(items) else Join(Leaves(Groups(items, k)), k)
  }

  lemma {:induction false} FlattenAllAppend(a: seq<Shape>, b: seq<Shape>)
    ensures FlattenAll(a + b) == FlattenAll(a) + FlattenAll(b)
    decreases |a|
  {
    if a == [] {
      assert a + b == b;
    } else {
      FlattenAllAppend(a[1..], b);
      assert (a + b)[1..] == a[1..] + b;
    }
  }

  lemma {:induction false} FlattenLeaves(gs: seq<seq<Link>>)
    ensures FlattenAll(Leaves(gs)) == Concat(gs)
    decreases |gs|
  {
    if gs != [] {
      FlattenLeaves(gs[1..]);
      assert Leaves(gs)[1..] == Leaves(gs[1..]);
    }
  }

  lemma {:induction false} FlattenParents(gs: seq<seq<Shape>>)
    ensures FlattenAll(Parents(gs)) == FlattenAll(Concat(gs))
    decreases |gs|
  {
    if gs != [] {
      FlattenParents(gs[1..]);
      assert Parents(gs)[1..] == Parents(gs[1..]);
      FlattenAllAppend(gs[0], Concat(gs[1..]));
    }
  }

  lemma {:induction false} FlattenJoin(ss: seq<Shape>, k: nat)
    requires k >= 2
    ensures Flatten(Join(ss, k)) == FlattenAll(ss)
    decreases |ss|
  {
    if |ss| > k {
      GroupsShrink(ss, k);
      FlattenJoin(Parents(Groups(ss, k)), k);
      FlattenParents(Groups(ss, k));
      ConcatGroups(ss, k);
    }
  }

  /** Collapsing loses, duplicates and reorders nothing: sizes and counts, which are defined
      on the flattened list, are conserved at every level. */
  lemma FlattenCollapse(items: seq<Link>, k: nat)
    requires k >= 2
    ensures Flatten(Collapse(items, k)) == items
  {
    if |items| > k {
      FlattenJoin(Leaves(Groups(items, k)), k);
      FlattenLeaves(Groups(items, k));
      ConcatGroups(items, k);
    }
  }

  // ---- Size and height ----

  /** All leaves are `h` links down, no manifest has more than `k` links, and below a root no
      manifest is empty. */
  ghost predicate Uniform(s: Shape, h: nat, k: nat)
    decreases h
  {
    match s
    case Leaf(items) => h == 0 && |items| <= k
    case Inner(children) =>
      && h > 0 && 0 < |children| <= k
      && forall i :: 0 <= i < |children| ==> Uniform(children[i], h - 1, k) && Flatten(children[i]) != []
  }

  function Pow(k: nat, e: nat): nat {
    if e == 0 then 1 else k * Pow(k, e - 1)
  }

  ghost predicate AllUniform(ss: seq<Shape>, h: nat, k: nat) {
    forall i :: 0 <= i < |ss| ==> Uniform(ss[i], h, k) && Flatten(ss[i]) != []
  }

  lemma {:induction false} NonEmptyAll(ss: seq<Shape>)
    requires ss != [] && Flatten(ss[0]) != []
    ensures FlattenAll(ss) != []
  {
  }

  lemma ParentsUniform(ss: seq<Shape>, h: nat, k: nat)
    requires k >= 2 && AllUniform(ss, h, k)
    ensures AllUniform(Parents(Groups(ss, k)), h + 1, k)
  {
    var gs := Groups(ss, k);
    GroupSizes(ss, k);
    forall i | 0 <= i < |gs| ensures Uniform(Inner(gs[i]), h + 1, k) && Flatten(Inner(gs[i])) != [] {
      forall j | 0 <= j < |gs[i]| ensures Uniform(gs[i][j], h, k) && Flatten(gs[i][j]) != [] {
        GroupMember(ss, k, i, j);
      }
      NonEmptyAll(gs[i]);
    }
  }

  lemma {:induction false} GroupMember<T>(s: seq<T>, k: nat, i: nat, j: nat)
    requires k > 0 && i < |Groups(s, k)| && j < |Groups(s, k)[i]|
    ensures Groups(s, k)[i][j] in s
    decreases |s|
  {
    if |s| > k && i > 0 {
      GroupMember(s[k..], k, i - 1, j);
    }
  }

  lemma LogStep(n: nat, k: nat, q: nat, lo: nat, hi: nat)
    requires k > 0 && q == (n + k - 1) / k && lo < q <= hi
    ensures k * lo < n <= k * hi
  {
    assert q * k <= n + k - 1 < q * k + k;
    MulMono(q, hi, k);
    MulMono(lo + 1, q, k);
    assert (lo + 1) * k == lo * k + k;
  }

  /** The height is the exact base-k logarithm of the number of nodes joined. */
  lemma {:induction false} JoinHeight(ss: seq<Shape>, h: nat, k: nat) returns (e: nat)
    requires k >= 2 && ss != [] && AllUniform(ss, h, k)
    ensures Uniform(Join(ss, k), h + e, k)
    ensures e > 0 && |ss| <= Pow(k, e)
    ensures |ss| > 1 ==> Pow(k, e - 1) < |ss|
    decreases |ss|
  {
    if |ss| <= k {
      e := 1;
      assert Pow(k, 1) == k * Pow(k, 0) == k;
    } else {
      GroupsShrink(ss, k);
      var up := Parents(Groups(ss, k));
      ParentsUniform(ss, h, k);
      var d := JoinHeight(up, h + 1, k);
      e := d + 1;
      GroupSizes(ss, k);
      LogStep(|ss|, k, |up|, Pow(k, d - 1), Pow(k, d));
    }
  }

  /** A list of more than k links fans out to height h with k^h < n <= k^(h+1). */
  lemma CollapseHeight(items: seq<Link>, k: nat) returns (h: nat)
    requires k >= 2
    ensures Uniform(Collapse(items, k), h, k)
    ensures |items| <= Pow(k, h + 1)
    ensures |items| > 1 ==> Pow(k, h) < |items|
    ensures h == 0 <==> |items| <= k
  {
    if |items| <= k {
      h := 0;
      assert Pow(k, 1) == k * Pow(k, 0) == k;
    } else {
      var ls := Leaves(Groups(items, k));
      GroupsShrink(items, k);
      GroupSizes(items, k);
      h := JoinHeight(ls, 0, k);
      LogStep(|items|, k, |ls|, Pow(k, h - 1), Pow(k, h));
    }
  }

  // ---- Every node passes the decoder ----

  /** The lists directory and file trees are collapsed from. */
  ghost predicate Listable(t: TreeKind, items: seq<Link>) {
    && |items| <= MAX_SAFE && SumSizes(items) <= MAX_SAFE
    && match t
       case FileTree => forall i :: 0 <= i < |items| ==> FileLinkOk(items[i])
       case DirTree =>
         && (forall i :: 0 <= i < |items| ==> DirectoryLinkOk(items[i]))
         && Increasing(Names(items))
  }

  /** No manifest of the node has more than `k` links, and below a root no manifest is empty. */
  ghost predicate Compact(s: Shape, k: nat)
    decreases s
  {
    match s
    case Leaf(items) => |items| <= k
    case Inner(children) =>
      && 0 < |children| <= k
      && forall i :: 0 <= i < |children| ==> Compact(children[i], k) && Flatten(children[i]) != []
  }

  lemma {:induction false} UniformCompact(s: Shape, h: nat, k: nat)
    requires Uniform(s, h, k)
    ensures Compact(s, k) && Height(s) <= h
    decreases h
  {
    if s.Inner? {
      forall i | 0 <= i < |s.children| ensures Compact(s.children[i], k) && Height(s.children[i]) <= h - 1 {
        UniformCompact(s.children[i], h - 1, k);
      }
      HeightAllBound(s.children, h - 1);
    }
  }

  /** The number of link hops from a node to its deepest leaf manifest. */
  function Height(s: Shape): nat
    decreases s
  {
    match s
    case Leaf(_) => 0
    case Inner(children) => 1 + HeightAll(children)
  }

  function HeightAll(ss: seq<Shape>): nat
    decreases ss
  {
    if ss == [] then 0
    else
      var rest := HeightAll(ss[1..]);
      if Height(ss[0]) > rest then Height(ss[0]) else rest
  }

  lemma {:induction false} HeightAllBound(ss: seq<Shape>, h: nat)
    requires forall i :: 0 <= i < |ss| ==> Height(ss[i]) <= h
    ensures HeightAll(ss) <= h
    decreases |ss|
  {
    if ss != [] { HeightAllBound(ss[1..], h); }
  }

  lemma {:induction false} HeightAllMax(ss: seq<Shape>, i: nat)
    requires i < |ss|
    ensures Height(ss[i]) <= HeightAll(ss)
    decreases |ss|
  {
    if i > 0 { HeightAllMax(ss[1..], i - 1); }
  }

  /** Where the entries of one child sit in the flattened list. */
  lemma {:induction false} ChildSpan(ss: seq<Shape>, i: nat) returns (lo: nat)
    requires i < |ss|
    ensures lo + |Flatten(ss[i])| <= |FlattenAll(ss)|
    ensures FlattenAll(ss)[lo..lo + |Flatten(ss[i])|] == Flatten(ss[i])
    ensures lo == |FlattenAll(ss[..i])|
    decreases |ss|
  {
    if i == 0 {
      lo := 0;
      assert ss[..0] == [];
    } else {
      var down := ChildSpan(ss[1..], i - 1);
      lo := |Flatten(ss[0])| + down;
      assert ss[..i][1..] == ss[1..][..i - 1];
      assert ss[..i][0] == ss[0];
      var all, n := FlattenAll(ss), |Flatten(ss[i])|;
      assert all[lo..lo + n] == FlattenAll(ss[1..])[down..down + n];
    }
  }

  lemma SliceSum(items: seq<Link>, lo: nat, hi: nat)
    requires lo <= hi <= |items|
    ensures SumSizes(items[lo..hi]) <= SumSizes(items)
  {
    hide SumSizes;
    var part, rest := items[lo..hi], items[hi..];
    assert items[lo..] == part + rest && items == items[..lo] + items[lo..];
    SumSizesAppend(items[..lo], items[lo..]);
    SumSizesAppend(part, rest);
  }

  lemma SliceIncreasing(items: seq<Link>, lo: nat, hi: nat)
    requires lo <= hi <= |items|
    requires forall i :: 0 <= i < |items| ==> items[i].name.Some?
    requires Increasing(Names(items))
    ensures Increasing(Names(items[lo..hi]))
  {
    hide ByteLess;
    var part := items[lo..hi];
    forall i, j | 0 <= i < j < |part| ensures ByteLess(Names(part)[i], Names(part)[j]) {
      assert Names(part)[i] == Names(items)[lo + i] && Names(part)[j] == Names(items)[lo + j];
    }
  }

  lemma ListableSlice(t: TreeKind, items: seq<Link>, lo: nat, hi: nat)
    requires Listable(t, items) && lo <= hi <= |items|
    ensures Listable(t, items[lo..hi])
  {
    hide Increasing, SafeName;
    SliceSum(items, lo, hi);
    if t.DirTree? { SliceIncreasing(items, lo, hi); }
  }

  /** Entries of an earlier child precede those of a later one. */
  lemma ChildrenApart(ss: seq<Shape>, i: nat, j: nat)
    requires i < j < |ss|
    ensures |FlattenAll(ss[..i])| + |Flatten(ss[i])| <= |FlattenAll(ss[..j])|
  {
    var lo := ChildSpan(ss[..j], i);
    assert ss[..j][..i] == ss[..i];
  }

  lemma BoundsOrdered(s: Shape)
    requires Listable(DirTree, Flatten(s)) && Flatten(s) != []
    ensures 0 < NodeBounds(s).count <= MAX_SAFE
    ensures ByteLe(NodeBounds(s).first, NodeBounds(s).last)
  {
    hide ByteLe;
    var part := Flatten(s);
    ByteTotal(NameOf(part[0]), NameOf(part[0]));
    if |part| > 1 { assert ByteLess(Names(part)[0], Names(part)[|part| - 1]); }
  }

  lemma ChildListable(t: TreeKind, ss: seq<Shape>, i: nat)
    requires i < |ss| && Listable(t, FlattenAll(ss))
    ensures Listable(t, Flatten(ss[i]))
  {
    hide *;
    var lo := ChildSpan(ss, i);
    ListableSlice(t, FlattenAll(ss), lo, lo + |Flatten(ss[i])|);
  }

  /** The link to one child passes the decoder. */
  lemma ChildLinkValid(c: Codec, t: TreeKind, ss: seq<Shape>, i: nat)
    requires i < |ss| && Listable(t, FlattenAll(ss)) && Flatten(ss[i]) != []
    ensures t.FileTree? ==> FileLinkOk(NodeLink(c, t, ss[i]))
    ensures t.DirTree? ==> FanoutLinkOk(NodeLink(c, t, ss[i]))
  {
    ChildListable(t, ss, i);
    if t.DirTree? { BoundsOrdered(ss[i]); }
  }

  lemma NamesOrdered(items: seq<Link>, x: nat, y: nat)
    requires Listable(DirTree, items) && x < y < |items|
    ensures ByteLess(NameOf(items[x]), NameOf(items[y]))
  {
    assert ByteLess(Names(items)[x], Names(items)[y]);
  }

  lemma EntryAt(ss: seq<Shape>, i: nat, x: nat)
    requires i < |ss| && x < |Flatten(ss[i])|
    ensures |FlattenAll(ss[..i])| + x < |FlattenAll(ss)|
    ensures FlattenAll(ss)[|FlattenAll(ss[..i])| + x] == Flatten(ss[i])[x]
  {
    var lo := ChildSpan(ss, i);
    assert FlattenAll(ss)[lo..lo + |Flatten(ss[i])|][x] == FlattenAll(ss)[lo + x];
  }

  lemma BoundsApart(items: seq<Link>, x: nat, y: nat, a: Shape, b: Shape)
    requires Listable(DirTree, items) && x < y < |items|
    requires Flatten(a) != [] && items[x] == Flatten(a)[|Flatten(a)| - 1]
    requires Flatten(b) != [] && items[y] == Flatten(b)[0]
    ensures ByteLess(NodeBounds(a).last, NodeBounds(b).first)
  {
    hide ByteLess, Listable;
    NamesOrdered(items, x, y);
  }

  /** Siblings are sorted and disjoint. */
  lemma SiblingsApart(ss: seq<Shape>, i: nat, j: nat)
    requires i < j < |ss| && Listable(DirTree, FlattenAll(ss))
    requires Flatten(ss[i]) != [] && Flatten(ss[j]) != []
    ensures ByteLess(NodeBounds(ss[i]).last, NodeBounds(ss[j]).first)
  {
    hide *;
    var n := |Flatten(ss[i])|;
    EntryAt(ss, i, n - 1);
    EntryAt(ss, j, 0);
    ChildrenApart(ss, i, j);
    BoundsApart(FlattenAll(ss), |FlattenAll(ss[..i])| + n - 1, |FlattenAll(ss[..j])|, ss[i], ss[j]);
  }

  /** Every manifest of a collapsed list satisfies the decoder's rules. */
  lemma NodeValid(c: Codec, t: TreeKind, s: Shape, k: nat)
    requires Listable(t, Flatten(s)) && Compact(s, k)
    ensures ValidManifest(NodeManifest(c, t, s), k)
  {
    if s.Inner? {
      var ss := s.children;
      forall i | 0 <= i < |ss|
        ensures t.FileTree? ==> FileLinkOk(ChildLinks(c, t, ss)[i])
        ensures t.DirTree? ==> FanoutLinkOk(ChildLinks(c, t, ss)[i])
      {
        ChildLinkValid(c, t, ss, i);
      }
      if t.DirTree? {
        forall i, j | 0 <= i < j < |ss|
          ensures ByteLess(NodeBounds(ss[i]).last, NodeBounds(ss[j]).first)
        {
          SiblingsApart(ss, i, j);
        }
      }
    }
  }
}
