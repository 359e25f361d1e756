/** What resolving a path through a store of blobs yields.

    `Walk` follows directory and fan-out manifests from a root, one manifest per unit of depth;
    it makes sense on any store, also one that holds hostile manifests.  The lemmas say what it
    yields on nodes that `Shapes.Collapse` made.
 */
module Reader {
  import opened NameOrder
  import opened Manifests
  import opened Shapes
  import opened Grouping

  /** The blobs that can be fetched and verified, by digest. */
  type Store = map<Hash, Bytes>

  datatype Outcome = Found(link: Link) | Absent | OverBudget | Unavailable | WrongType

  /** Fetch, decode and validate one manifest. */
  ghost function Load(c: Codec, limit: nat, store: Store, h: Hash): Option<Manifest> {
    if h !in store then None
    else
      match c.decode(store[h])
      case None => None
      case Some(m) => if ValidManifest(m, limit) then Some(m) else None
  }

  /** The first link with the given name. */
  function FindName(links: seq<Link>, n: Name): Option<Link> {
    if links == [] then None
    else if links[0].name == Some(n) then Some(links[0])
    else FindName(links[1..], n)
  }

  predicate InSpan(l: Link, n: Name) {
    l.bounds.Some? && ScriptLe(l.bounds.value.first, n) && ScriptLe(n, l.bounds.value.last)
  }

  /** The first link whose bounds hold the given name. */
  function FindSpan(links: seq<Link>, n: Name): Option<Link> {
    if links == [] then None
    else if InSpan(links[0], n) then Some(links[0])
    else FindSpan(links[1..], n)
  }

  ghost function Walk(c: Codec, limit: nat, store: Store, h: Hash, expected: LinkType, segs: seq<Name>, depth: nat): Outcome
    requires segs != []
    decreases depth, 1
  {
    if depth == 0 then OverBudget
    else
      match Load(c, limit, store, h)
      case None => Unavailable
      case Some(m) =>
        if m.kind != expected then WrongType
        else if m.kind == Directory then Enter(c, limit, store, FindName(m.links, segs[0]), segs, depth - 1)
        else
          match FindSpan(m.links, segs[0])
          case None => Absent
          case Some(l) => Walk(c, limit, store, l.hash, l.kind, segs, depth - 1)
  }

  /** Continue with the entry a directory lists for the first segment. */
  ghost function Enter(c: Codec, limit: nat, store: Store, entry: Option<Link>, segs: seq<Name>, depth: nat): Outcome
    requires segs != []
    decreases depth, 2
  {
    match entry
    case None => Absent
    case Some(l) =>
      if |segs| == 1 then Found(l)
      else if l.kind != Directory && l.kind != Fanout then Absent
      else Walk(c, limit, store, l.hash, l.kind, segs[1..], depth)
  }

  /** Every manifest of a node is in the store. */
  ghost predicate Present(c: Codec, t: TreeKind, store: Store, s: Shape)
    decreases s
  {
    && NodeHash(c, t, s) in store
    && store[NodeHash(c, t, s)] == c.encode(NodeManifest(c, t, s))
    && (s.Inner? ==> forall i :: 0 <= i < |s.children| ==> Present(c, t, store, s.children[i]))
  }

  lemma LoadNode(c: Codec, t: TreeKind, limit: nat, store: Store, s: Shape)
    requires Faithful(c) && Present(c, t, store, s) && Listable(t, Flatten(s)) && Compact(s, limit)
    ensures Load(c, limit, store, NodeHash(c, t, s)) == Some(NodeManifest(c, t, s))
  {
    NodeValid(c, t, s, limit);
  }

  // ---- Finding by name and by span ----

  ghost predicate Lists(items: seq<Link>, n: Name) {
    exists x :: 0 <= x < |items| && items[x].name == Some(n)
  }

  lemma {:induction false} FindNameNone(items: seq<Link>, n: Name)
    ensures FindName(items, n).None? <==> !Lists(items, n)
    ensures FindName(items, n).Some? ==>
              exists x :: 0 <= x < |items| && items[x].name == Some(n) && FindName(items, n).value == items[x]
  {
    if items != [] && items[0].name != Some(n) {
      FindNameNone(items[1..], n);
      if Lists(items[1..], n) {
        var x :| 0 <= x < |items[1..]| && items[1..][x].name == Some(n);
        assert items[x + 1].name == Some(n);
      }
      if Lists(items, n) {
        var x :| 0 <= x < |items| && items[x].name == Some(n);
        assert items[1..][x - 1].name == Some(n);
      }
      if FindName(items, n).Some? {
        var x :| 0 <= x < |items[1..]| && items[1..][x].name == Some(n) && FindName(items[1..], n).value == items[1..][x];
        assert items[x + 1] == items[1..][x];
      }
    }
  }

  /** In an ordered list a name is found where it is listed. */
  lemma FindNameAt(items: seq<Link>, x: nat)
    requires Listable(DirTree, items) && x < |items|
    ensures FindName(items, NameOf(items[x])) == Some(items[x])
  {
    hide ByteLe, ScriptLe, Basic;
    var n := NameOf(items[x]);
    assert items[x].name == Some(n);
    FindNameNone(items, n);
    var y :| 0 <= y < |items| && items[y].name == Some(n) && FindName(items, n).value == items[y];
    if x < y {
      NamesOrdered(items, x, y);
    } else if y < x {
      NamesOrdered(items, y, x);
    }
  }

  lemma {:induction false} FindSpanFirst(links: seq<Link>, n: Name, i: nat)
    requires i < |links| && InSpan(links[i], n)
    requires forall j :: 0 <= j < i ==> !InSpan(links[j], n)
    ensures FindSpan(links, n) == Some(links[i])
  {
    if i > 0 { FindSpanFirst(links[1..], n, i - 1); }
  }

  lemma {:induction false} FindSpanSome(links: seq<Link>, n: Name) returns (i: nat)
    requires FindSpan(links, n).Some?
    ensures i < |links| && FindSpan(links, n) == Some(links[i])
  {
    if InSpan(links[0], n) {
      i := 0;
    } else {
      i := FindSpanSome(links[1..], n);
      i := i + 1;
    }
  }

  /** The child and position that list an entry of the flattened list. */
  lemma {:induction false} Locate(ss: seq<Shape>, x: nat) returns (i: nat, y: nat)
    requires x < |FlattenAll(ss)|
    ensures i < |ss| && y < |Flatten(ss[i])| && Flatten(ss[i])[y] == FlattenAll(ss)[x]
    decreases |ss|
  {
    if x < |Flatten(ss[0])| {
      i, y := 0, x;
    } else {
      i, y := Locate(ss[1..], x - |Flatten(ss[0])|);
      i := i + 1;
    }
  }

  ghost predicate AllBasic(items: seq<Link>) {
    forall x :: 0 <= x < |items| ==> Basic(NameOf(items[x]))
  }

  lemma BetweenEnds(items: seq<Link>, y: nat)
    requires Listable(DirTree, items) && AllBasic(items) && y < |items|
    ensures ScriptLe(NameOf(items[0]), NameOf(items[y])) && ScriptLe(NameOf(items[y]), NameOf(items[|items| - 1]))
  {
    hide ByteLe, ScriptLe, Basic;
    var n, last := NameOf(items[y]), |items| - 1;
    ByteTotal(n, n);
    if y > 0 { NamesOrdered(items, 0, y); }
    if y < last { NamesOrdered(items, y, last); }
    ScriptOrderOnBasic(NameOf(items[0]), n);
    ScriptOrderOnBasic(n, NameOf(items[last]));
  }

  lemma ChildBasic(ss: seq<Shape>, i: nat)
    requires i < |ss| && AllBasic(FlattenAll(ss))
    ensures AllBasic(Flatten(ss[i]))
  {
    forall x | 0 <= x < |Flatten(ss[i])| ensures Basic(NameOf(Flatten(ss[i])[x])) {
      EntryAt(ss, i, x);
    }
  }

  // ---- Walking one directory ----

  ghost function WalkNode(c: Codec, limit: nat, store: Store, s: Shape, segs: seq<Name>, depth: nat): Outcome
    requires segs != []
  {
    Walk(c, limit, store, NodeHash(c, DirTree, s), NodeKind(DirTree, s), segs, depth)
  }

  /** A node as it has to be for walking. */
  ghost predicate Walkable(c: Codec, limit: nat, store: Store, s: Shape) {
    Present(c, DirTree, store, s) && Listable(DirTree, Flatten(s)) && Compact(s, limit)
  }

  lemma WalkZero(c: Codec, limit: nat, store: Store, s: Shape, segs: seq<Name>)
    requires segs != []
    ensures WalkNode(c, limit, store, s, segs, 0) == OverBudget
  {
  }

  lemma WalkLeaf(c: Codec, limit: nat, store: Store, s: Shape, segs: seq<Name>, depth: nat)
    requires Faithful(c) && Walkable(c, limit, store, s) && s.Leaf? && segs != [] && depth > 0
    ensures WalkNode(c, limit, store, s, segs, depth) == Enter(c, limit, store, FindName(Flatten(s), segs[0]), segs, depth - 1)
  {
    LoadNode(c, DirTree, limit, store, s);
  }

  lemma WalkInner(c: Codec, limit: nat, store: Store, s: Shape, segs: seq<Name>, depth: nat)
    requires Faithful(c) && Walkable(c, limit, store, s) && s.Inner? && segs != [] && depth > 0
    ensures WalkNode(c, limit, store, s, segs, depth) ==
            match FindSpan(ChildLinks(c, DirTree, s.children), segs[0])
            case None => Absent
            case Some(l) => Walk(c, limit, store, l.hash, l.kind, segs, depth - 1)
  {
    LoadNode(c, DirTree, limit, store, s);
  }

  // ---- Which listed names a fan-out shows ----

  /** The name lies between the child's first and last name, in the reader's order. */
  ghost predicate Within(s: Shape, n: Name) {
    Flatten(s) != [] && ScriptLe(NameOf(Flatten(s)[0]), n) && ScriptLe(n, NameOf(Flatten(s)[|Flatten(s)| - 1]))
  }

  ghost predicate FirstWithin(ss: seq<Shape>, n: Name, i: nat) {
    i < |ss| && Within(ss[i], n) && forall j :: 0 <= j < i ==> !Within(ss[j], n)
  }

  /** At every fan-out the first child that seems to hold the name is the one that lists it. */
  ghost predicate Routed(s: Shape, n: Name)
    decreases s
  {
    s.Inner? ==> exists i :: 0 <= i < |s.children| && FirstWithin(s.children, n, i) && Lists(Flatten(s.children[i]), n) && Routed(s.children[i], n)
  }

  /** The entry a reader sees for a name. */
  ghost function Seen(s: Shape, n: Name): Option<Link> {
    if Routed(s, n) then FindName(Flatten(s), n) else None
  }

  lemma WithinIsSpan(c: Codec, s: Shape, n: Name)
    requires Flatten(s) != []
    ensures InSpan(NodeLink(c, DirTree, s), n) <==> Within(s, n)
  {
    hide ScriptLe, NodeManifest;
  }

  /** A fan-out leads to the first child that seems to hold the name, if any. */
  lemma SpanIsFirst(c: Codec, ss: seq<Shape>, n: Name) returns (i: Option<nat>)
    requires forall j :: 0 <= j < |ss| ==> Flatten(ss[j]) != []
    ensures i.None? ==> FindSpan(ChildLinks(c, DirTree, ss), n).None? && forall j :: 0 <= j < |ss| ==> !Within(ss[j], n)
    ensures i.Some? ==> FirstWithin(ss, n, i.value) && FindSpan(ChildLinks(c, DirTree, ss), n) == Some(NodeLink(c, DirTree, ss[i.value]))
  {
    hide Within, InSpan, NodeLink;
    forall j | 0 <= j < |ss| ensures InSpan(ChildLinks(c, DirTree, ss)[j], n) <==> Within(ss[j], n) {
      WithinIsSpan(c, ss[j], n);
    }
    i := FirstOf(ChildLinks(c, DirTree, ss), n);
    if i.Some? {
      FindSpanFirst(ChildLinks(c, DirTree, ss), n, i.value);
    }
  }

  lemma {:induction false} FirstOf(links: seq<Link>, n: Name) returns (i: Option<nat>)
    ensures i.None? ==> FindSpan(links, n).None? && forall j :: 0 <= j < |links| ==> !InSpan(links[j], n)
    ensures i.Some? ==> i.value < |links| && InSpan(links[i.value], n) && forall j :: 0 <= j < i.value ==> !InSpan(links[j], n)
  {
    hide InSpan;
    if links == [] {
      i := None;
    } else if InSpan(links[0], n) {
      i := Some(0);
    } else {
      i := FirstOf(links[1..], n);
      if i.Some? {
        i := Some(i.value + 1);
      }
      assert forall j :: 0 < j < |links| ==> links[j] == links[1..][j - 1];
    }
  }

  lemma WalkableChildren(c: Codec, limit: nat, store: Store, s: Shape)
    requires Walkable(c, limit, store, s) && s.Inner?
    ensures forall i :: 0 <= i < |s.children| ==> Flatten(s.children[i]) != [] && Walkable(c, limit, store, s.children[i])
  {
    forall i | 0 <= i < |s.children| ensures Listable(DirTree, Flatten(s.children[i])) {
      ChildListable(DirTree, s.children, i);
    }
    hide Listable, NodeManifest;
  }

  lemma FirstIsOnly(s: Shape, n: Name, i: nat)
    requires s.Inner? && FirstWithin(s.children, n, i)
    ensures Routed(s, n) <==> Lists(Flatten(s.children[i]), n) && Routed(s.children[i], n)
  {
    hide Within, Lists;
  }

  lemma NotRouted(s: Shape, n: Name)
    requires s.Inner? && forall j :: 0 <= j < |s.children| ==> !Within(s.children[j], n)
    ensures !Routed(s, n)
  {
    hide Within;
  }

  /** Seeing a name in a fan-out is seeing it in the first child that seems to hold it. */
  lemma SeenBelow(c: Codec, limit: nat, store: Store, s: Shape, n: Name, i: nat)
    requires Walkable(c, limit, store, s) && s.Inner? && FirstWithin(s.children, n, i)
    ensures Seen(s, n) == Seen(s.children[i], n)
  {
    hide Within, Present, Compact, Routed, FindName;
    var child := s.children[i];
    FirstIsOnly(s, n, i);
    FindNameNone(Flatten(child), n);
    if Lists(Flatten(child), n) {
      var y :| 0 <= y < |Flatten(child)| && Flatten(child)[y].name == Some(n);
      ListedAbove(s.children, i, y);
      WalkableChildren(c, limit, store, s);
      FindNameAt(Flatten(child), y);
    }
  }

  lemma ListedAbove(ss: seq<Shape>, i: nat, y: nat)
    requires Listable(DirTree, FlattenAll(ss)) && i < |ss| && y < |Flatten(ss[i])| && Flatten(ss[i])[y].name.Some?
    ensures FindName(FlattenAll(ss), NameOf(Flatten(ss[i])[y])) == Some(Flatten(ss[i])[y])
  {
    EntryAt(ss, i, y);
    FindNameAt(FlattenAll(ss), |FlattenAll(ss[..i])| + y);
  }

  /** One fan-out level down. */
  lemma InnerStep(c: Codec, limit: nat, store: Store, s: Shape, segs: seq<Name>, depth: nat) returns (i: Option<nat>)
    requires Faithful(c) && Walkable(c, limit, store, s) && s.Inner? && segs != [] && depth > 0
    ensures i.None? ==> Seen(s, segs[0]) == None && WalkNode(c, limit, store, s, segs, depth) == Absent
    ensures i.Some? ==>
      && i.value < |s.children|
      && WalkNode(c, limit, store, s, segs, depth) == WalkNode(c, limit, store, s.children[i.value], segs, depth - 1)
      && Seen(s.children[i.value], segs[0]) == Seen(s, segs[0])
      && Walkable(c, limit, store, s.children[i.value])
      && Height(s.children[i.value]) < Height(s)
  {
    hide Walk, Within, Present, NodeManifest, Listable, Compact, Routed, FindName, FindSpan, Seen;
    WalkInner(c, limit, store, s, segs, depth);
    WalkableChildren(c, limit, store, s);
    i := SpanIsFirst(c, s.children, segs[0]);
    if i.Some? {
      HeightAllMax(s.children, i.value);
      SeenBelow(c, limit, store, s, segs[0], i.value);
    } else {
      NotRouted(s, segs[0]);
      NotSeen(s, segs[0]);
    }
  }

  lemma NotSeen(s: Shape, n: Name)
    requires !Routed(s, n)
    ensures Seen(s, n) == None
  {
  }

  lemma EnterNone(c: Codec, limit: nat, store: Store, segs: seq<Name>, rest: nat)
    requires segs != []
    ensures Enter(c, limit, store, None, segs, rest) == Absent
  {
  }

  lemma SeenLeaf(s: Shape, n: Name)
    requires s.Leaf?
    ensures Seen(s, n) == FindName(Flatten(s), n)
  {
  }

  /** Through any number of fan-out levels, the walk arrives at the entry the reader sees for the
      first segment. */
  lemma {:induction false} FanWalk(c: Codec, limit: nat, store: Store, s: Shape, segs: seq<Name>, depth: nat) returns (rest: nat)
    requires Faithful(c) && Walkable(c, limit, store, s)
    requires segs != [] && depth > Height(s)
    ensures depth - Height(s) - 1 <= rest < depth
    ensures WalkNode(c, limit, store, s, segs, depth) == Enter(c, limit, store, Seen(s, segs[0]), segs, rest)
    decreases s
  {
    hide *;
    rest := depth - 1;
    if s.Leaf? {
      WalkLeaf(c, limit, store, s, segs, depth);
      SeenLeaf(s, segs[0]);
    } else {
      var i := InnerStep(c, limit, store, s, segs, depth);
      if i.Some? {
        rest := FanWalk(c, limit, store, s.children[i.value], segs, depth - 1);
      } else {
        EnterNone(c, limit, store, segs, rest);
      }
    }
  }

  /** Whatever the depth allowed, the walk gives that answer or reports that it ran out. */
  lemma {:induction false} FanWalkBounded(c: Codec, limit: nat, store: Store, s: Shape, segs: seq<Name>, depth: nat) returns (rest: nat)
    requires Faithful(c) && Walkable(c, limit, store, s) && segs != []
    ensures rest <= depth && (depth > 0 ==> rest < depth)
    ensures
      || WalkNode(c, limit, store, s, segs, depth) == OverBudget
      || WalkNode(c, limit, store, s, segs, depth) == Enter(c, limit, store, Seen(s, segs[0]), segs, rest)
    decreases s
  {
    hide *;
    rest := 0;
    if depth > 0 {
      if s.Leaf? {
        WalkLeaf(c, limit, store, s, segs, depth);
        SeenLeaf(s, segs[0]);
        rest := depth - 1;
      } else {
        var i := InnerStep(c, limit, store, s, segs, depth);
        if i.Some? {
          rest := FanWalkBounded(c, limit, store, s.children[i.value], segs, depth - 1);
        } else {
          EnterNone(c, limit, store, segs, rest);
        }
      }
    } else {
      WalkZero(c, limit, store, s, segs);
    }
  }

  /** A listed name is found exactly when every fan-out on its way routes it to its own child by
      the reader's order; otherwise it is called absent. */
  lemma FoundIffRouted(c: Codec, limit: nat, store: Store, s: Shape, x: nat, depth: nat)
    requires Faithful(c) && Walkable(c, limit, store, s) && depth > Height(s) && x < |Flatten(s)|
    ensures var n := NameOf(Flatten(s)[x]);
      WalkNode(c, limit, store, s, [n], depth) == if Routed(s, n) then Found(Flatten(s)[x]) else Absent
  {
    hide WalkNode, Routed, Flatten;
    var n := NameOf(Flatten(s)[x]);
    var rest := FanWalk(c, limit, store, s, [n], depth);
    FindNameAt(Flatten(s), x);
  }

  // ---- Where the two orders agree every listed name is routed ----

  /** A name listed under a child lies within that child's bounds. */
  lemma OwnSpan(s: Shape, y: nat)
    requires Listable(DirTree, Flatten(s)) && AllBasic(Flatten(s)) && y < |Flatten(s)|
    ensures Within(s, NameOf(Flatten(s)[y]))
  {
    hide ByteLe, ScriptLe, Basic;
    BetweenEnds(Flatten(s), y);
  }

  /** ... and beyond the bounds of every earlier child. */
  lemma OtherSpan(ss: seq<Shape>, j: nat, i: nat, y: nat)
    requires Listable(DirTree, FlattenAll(ss)) && AllBasic(FlattenAll(ss))
    requires j < i < |ss| && y < |Flatten(ss[i])|
    ensures !Within(ss[j], NameOf(Flatten(ss[i])[y]))
  {
    hide ByteLe, ScriptLe, Basic, Flatten, FlattenAll, Listable;
    if Flatten(ss[j]) != [] {
      var all, m := FlattenAll(ss), |Flatten(ss[j])| - 1;
      EntryAt(ss, j, m);
      EntryAt(ss, i, y);
      ChildrenApart(ss, j, i);
      var a, b := |FlattenAll(ss[..j])| + m, |FlattenAll(ss[..i])| + y;
      NamesOrdered(all, a, b);
      var last, n := NameOf(all[a]), NameOf(all[b]);
      assert Basic(last) && Basic(n);
      ByteTotal(last, n);
      ScriptOrderOnBasic(n, last);
    }
  }

  /** Names without supplementary characters are always routed. */
  lemma {:induction false} BasicRouted(s: Shape, x: nat)
    requires Listable(DirTree, Flatten(s)) && AllBasic(Flatten(s)) && x < |Flatten(s)|
    ensures Routed(s, NameOf(Flatten(s)[x]))
    decreases s
  {
    hide Listable, AllBasic, Within;
    if s.Inner? {
      var n := NameOf(Flatten(s)[x]);
      var i, y := Locate(s.children, x);
      ChildListable(DirTree, s.children, i);
      ChildBasic(s.children, i);
      OwnSpan(s.children[i], y);
      forall j | 0 <= j < i ensures !Within(s.children[j], n) {
        OtherSpan(s.children, j, i, y);
      }
      BasicRouted(s.children[i], y);
      assert Flatten(s.children[i])[y].name == Some(n) by { NamedItem(Flatten(s.children[i]), y); }
    }
  }

  lemma NamedItem(items: seq<Link>, y: nat)
    requires Listable(DirTree, items) && y < |items|
    ensures items[y].name == Some(NameOf(items[y]))
  {
  }
}
