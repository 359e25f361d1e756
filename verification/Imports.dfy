/** `importDirectory`: reading a base tree back into rows, whatever its manifests look like. */
module Imports {
  import opened NameOrder
  import opened Manifests
  import opened Shapes
  import opened Grouping
  import opened Tables
  import opened Reader
  import opened Trees
  import opened Reachability
  import opened Writer

  /** The visible rows strictly under `d` whose next segment is one of `ns`. */
  ghost function RowsUnder(t: Table, d: Route, ns: set<Name>): Table {
    map r | r in t && Visible(t, r) && |d| < |r| && r[..|d|] == d && r[|d|] in ns :: t[r]
  }

  ghost function NameSet(items: seq<Link>): set<Name> {
    set x | 0 <= x < |items| :: NameOf(items[x])
  }

  /** No row lies under `d` by one of `ns`. */
  ghost predicate Fresh(rows: Table, d: Route, ns: set<Name>) {
    forall r :: r in rows && |d| < |r| && r[..|d|] == d ==> r[|d|] !in ns
  }

  ghost predicate RowsReferenced(rows: Table, refs: set<Ref>) {
    forall r :: r in rows && rows[r].FileEntry? ==> Ref(rows[r].hash, rows[r].kind) in refs
  }

  /** A manifest never links, directly or indirectly, to itself: digests descend. */
  ghost predicate Acyclic(c: Codec, store: Store, rank: Hash -> nat) {
    forall h :: h in store ==>
      match c.decode(store[h])
      case None => true
      case Some(m) => forall i :: 0 <= i < |m.links| ==> rank(m.links[i].hash) < rank(h)
  }

  /** Node `s` lists part of directory `parent` of the tree that realises `t`. */
  ghost predicate PartOf(c: Codec, limit: nat, store: Store, t: Table, shapes: ShapeMap, parent: Route, s: Shape) {
    && Faithful(c) && Realizes(c, limit, store, t, shapes) && FileKinds(t)
    && Visible(t, parent) && t[parent].DirEntry?
    && Walkable(c, limit, store, s)
    && forall x :: 0 <= x < |Flatten(s)| ==> Flatten(s)[x] in Flatten(shapes[parent])
  }

  // ---- Set arithmetic of rows ----

  lemma UnderUnion(t: Table, d: Route, a: set<Name>, b: set<Name>)
    ensures RowsUnder(t, d, a + b) == RowsUnder(t, d, a) + RowsUnder(t, d, b)
  {
    hide Visible;
  }

  lemma UnderNone(t: Table, d: Route)
    ensures RowsUnder(t, d, {}) == map[]
  {
    hide Visible;
  }

  /** One entry and everything below it. */
  lemma UnderOne(t: Table, d: Route, n: Name)
    requires Visible(t, d) && t[d].DirEntry? && d + [n] in t
    ensures RowsUnder(t, d, {n}) == map[d + [n] := t[d + [n]]]
              + (if t[d + [n]].DirEntry? then RowsUnder(t, d + [n], ChildNames(t, d + [n])) else map[])
  {
    hide Visible, ChildNames;
    var p := d + [n];
    var a := RowsUnder(t, d, {n});
    var b := map[p := t[p]] + (if t[p].DirEntry? then RowsUnder(t, p, ChildNames(t, p)) else map[]);
    forall r ensures r in a <==> r in b {
      VisibleChild(t, d, n);
      if r in a && r != p { BelowEntry(t, d, n, r); }
      if r in b && r != p { assert r[..|p|] == p; assert r[..|d|] == d; assert r[|d|] == n; }
      if r == p { assert r[..|d|] == d && r[|d|] == n; }
    }
  }

  lemma BelowEntry(t: Table, d: Route, n: Name, r: Route)
    requires Visible(t, r) && |d| < |r| && r[..|d|] == d && r[|d|] == n && r != d + [n] && d + [n] in t
    ensures t[d + [n]].DirEntry? && |r| > |d| + 1 && r[..|d| + 1] == d + [n]
    ensures r[|d| + 1] in ChildNames(t, d + [n])
  {
    var p := d + [n];
    assert |r| == |d| + 1 ==> r == p;
    assert r[..|d| + 1] == p;
    var q := r[..|d| + 2];
    assert q == p + [r[|d| + 1]];
    if |d| + 2 == |r| { assert q == r; }
  }

  /** At the root, all visible rows but the root's own. */
  lemma UnderRoot(t: Table)
    requires [] in t && t[[]].DirEntry?
    ensures (map[[] := DirEntry]) + RowsUnder(t, [], ChildNames(t, [])) == VisibleRows(t)
  {
    hide ChildNames;
    var a := (map[[] := DirEntry]) + RowsUnder(t, [], ChildNames(t, []));
    forall r ensures r in a <==> r in VisibleRows(t) {
      if r in VisibleRows(t) && r != [] {
        var q := r[..1];
        assert q == [] + [r[0]];
        if |r| == 1 { assert q == r; } else { assert r[..1] in t; }
      }
    }
    assert Visible(t, []);
  }

  lemma NameSetAppend(a: seq<Link>, b: seq<Link>)
    ensures NameSet(a + b) == NameSet(a) + NameSet(b)
  {
    forall n ensures n in NameSet(a + b) <==> n in NameSet(a) + NameSet(b) {
      if n in NameSet(a) {
        var x :| 0 <= x < |a| && NameOf(a[x]) == n;
        assert (a + b)[x] == a[x];
      }
      if n in NameSet(b) {
        var x :| 0 <= x < |b| && NameOf(b[x]) == n;
        assert (a + b)[|a| + x] == b[x];
      }
    }
  }

  /** An ordered list repeats no name. */
  lemma NamesDistinct(items: seq<Link>, i: nat)
    requires Listable(DirTree, items) && i <= |items|
    ensures NameSet(items[..i]) !! NameSet(items[i..])
  {
    hide Listable, ByteLess;
    forall n | n in NameSet(items[..i]) ensures n !in NameSet(items[i..]) {
      var x :| 0 <= x < |items[..i]| && NameOf(items[..i][x]) == n;
      if n in NameSet(items[i..]) {
        var y :| 0 <= y < |items[i..]| && NameOf(items[i..][y]) == n;
        NamesOrdered(items, x, i + y);
        ByteLessIrreflexive(n);
      }
    }
  }

  lemma ByteLessIrreflexive(n: Name)
    ensures !ByteLess(n, n)
  {
  }

  /** The names of the whole directory are exactly its children. */
  lemma NamesAreChildren(c: Codec, limit: nat, store: Store, t: Table, shapes: ShapeMap, d: Route)
    requires Realizes(c, limit, store, t, shapes) && d in t && t[d].DirEntry?
    ensures NameSet(Flatten(shapes[d])) == ChildNames(t, d)
  {
    hide Walkable, RowLink, Flatten, ChildNames;
    var items := Flatten(shapes[d]);
    forall n ensures n in NameSet(items) <==> n in ChildNames(t, d) {
      if d + [n] in t {
        var x :| 0 <= x < |items| && items[x].name == Some(n);
        assert NameOf(items[x]) == n;
      }
    }
  }

  // ---- What one listed entry says ----

  lemma PartEntry(c: Codec, limit: nat, store: Store, t: Table, shapes: ShapeMap, parent: Route, s: Shape, x: nat)
    requires PartOf(c, limit, store, t, shapes, parent, s) && x < |Flatten(s)|
    ensures var l := Flatten(s)[x]; var p := parent + [NameOf(l)];
      && l.name.Some? && p in t && Visible(t, p)
      && match t[p]
         case FileEntry(hash, size, kind) =>
           l.hash == hash && l.size == size && l.kind == kind && (kind == Raw || kind == File)
         case DirEntry =>
           && p in shapes && l.hash == NodeHash(c, DirTree, shapes[p]) && l.kind == NodeKind(DirTree, shapes[p])
           && PartOf(c, limit, store, t, shapes, p, shapes[p])
           && NameSet(Flatten(shapes[p])) == ChildNames(t, p)
  {
    hide Walkable, Flatten, NodeHash, ChildNames, Faithful;
    var items, l := Flatten(shapes[parent]), Flatten(s)[x];
    var y :| 0 <= y < |items| && items[y] == l;
    VisibleChild(t, parent, NameOf(l));
    var p := parent + [NameOf(l)];
    if t[p].DirEntry? { NamesAreChildren(c, limit, store, t, shapes, p); }
  }

  lemma PartChild(c: Codec, limit: nat, store: Store, t: Table, shapes: ShapeMap, parent: Route, s: Shape, i: nat)
    requires PartOf(c, limit, store, t, shapes, parent, s) && s.Inner? && i < |s.children|
    ensures PartOf(c, limit, store, t, shapes, parent, s.children[i])
  {
    hide Faithful, ListsRows, NodeHash, Listable;
    ChildListable(DirTree, s.children, i);
    forall x | 0 <= x < |Flatten(s.children[i])| ensures Flatten(s.children[i])[x] in Flatten(shapes[parent]) {
      EntryAt(s.children, i, x);
    }
  }

  lemma PartManifest(c: Codec, limit: nat, store: Store, t: Table, shapes: ShapeMap, parent: Route, s: Shape)
    requires PartOf(c, limit, store, t, shapes, parent, s)
    ensures var h := NodeHash(c, DirTree, s);
      && h in store && store[h] == c.encode(NodeManifest(c, DirTree, s)) && c.decode(store[h]) == Some(NodeManifest(c, DirTree, s))
      && ValidManifest(NodeManifest(c, DirTree, s), limit)
  {
    hide Realizes, Visible, Listable, Compact, ValidManifest, NodeManifest;
    NodeValid(c, DirTree, s, limit);
  }

  // ---- Progress through the links of one manifest ----

  /** What the first `i` links of a node's manifest list. */
  ghost function Covered(s: Shape, i: nat): seq<Link>
    requires i <= match s case Leaf(items) => |items| case Inner(children) => |children|
  {
    match s
    case Leaf(items) => items[..i]
    case Inner(children) => FlattenAll(children[..i])
  }

  ghost function Imported(rows: Table, t: Table, d: Route, ns: set<Name>): Table {
    rows + RowsUnder(t, d, ns)
  }

  /** Importing one more set of names. */
  lemma ImportedMore(rows: Table, t: Table, d: Route, a: set<Name>, b: set<Name>)
    ensures Imported(Imported(rows, t, d, a), t, d, b) == Imported(rows, t, d, a + b)
  {
    UnderUnion(t, d, a, b);
  }

  lemma ImportedFresh(rows: Table, t: Table, d: Route, a: set<Name>, b: set<Name>)
    requires Fresh(rows, d, a + b) && a !! b
    ensures Fresh(Imported(rows, t, d, a), d, b)
  {
    hide Visible;
  }

  lemma CoveredSnocInner(s: Shape, i: nat)
    requires s.Inner? && i < |s.children|
    ensures Covered(s, i + 1) == Covered(s, i) + Flatten(s.children[i])
  {
    hide Flatten;
    assert s.children[..i + 1] == s.children[..i] + [s.children[i]];
    FlattenAllAppend(s.children[..i], [s.children[i]]);
    assert FlattenAll([s.children[i]]) == Flatten(s.children[i]) + FlattenAll([]);
  }

  /** The names of a later child are new. */
  lemma ChildNamesApart(s: Shape, i: nat)
    requires s.Inner? && i < |s.children| && Listable(DirTree, Flatten(s))
    ensures NameSet(Covered(s, i)) !! NameSet(Flatten(s.children[i]))
    ensures NameSet(Covered(s, i)) + NameSet(Flatten(s.children[i])) <= NameSet(Flatten(s))
  {
    hide Listable, NameSet;
    var all, done, part := Flatten(s), Covered(s, i), Flatten(s.children[i]);
    assert s.children == s.children[..i] + s.children[i..];
    FlattenAllAppend(s.children[..i], s.children[i..]);
    var rest := FlattenAll(s.children[i..]);
    assert rest == part + FlattenAll(s.children[i + 1..]) by { assert s.children[i..][1..] == s.children[i + 1..]; }
    NamesDistinct(all, |done|);
    assert all[..|done|] == done && all[|done|..] == rest;
    NameSetAppend(done, rest);
    NameSetAppend(part, FlattenAll(s.children[i + 1..]));
  }

  lemma LeafNamesApart(s: Shape, i: nat)
    requires s.Leaf? && i < |s.items| && Listable(DirTree, Flatten(s))
    ensures NameOf(s.items[i]) !in NameSet(Covered(s, i))
    ensures NameSet(Covered(s, i + 1)) == NameSet(Covered(s, i)) + {NameOf(s.items[i])}
    ensures NameSet(Covered(s, i + 1)) <= NameSet(Flatten(s))
  {
    hide Listable;
    NamesDistinct(s.items, i);
    assert s.items[..i + 1] == s.items[..i] + [s.items[i]];
    NameSetAppend(s.items[..i], [s.items[i]]);
    assert NameSet([s.items[i]]) == {NameOf(s.items[i])};
    assert s.items[i..][0] == s.items[i];
    NameSetAppend(s.items[..i + 1], s.items[i + 1..]);
    assert s.items == s.items[..i + 1] + s.items[i + 1..];
  }

  /** The row of one entry, and everything under it, complete the import of its name. */
  lemma ImportedEntry(rows: Table, t: Table, d: Route, a: set<Name>, n: Name)
    requires Visible(t, d) && t[d].DirEntry? && d + [n] in t && n !in a && Fresh(rows, d, a + {n})
    ensures var now := Imported(rows, t, d, a); var p := d + [n];
      && p !in now
      && (t[p].FileEntry? ==> now[p := t[p]] == Imported(rows, t, d, a + {n}))
      && (t[p].DirEntry? ==>
           && Fresh(now[p := DirEntry], p, ChildNames(t, p))
           && Imported(now[p := DirEntry], t, p, ChildNames(t, p)) == Imported(rows, t, d, a + {n}))
  {
    hide Visible, ChildNames, RowsUnder;
    var now, p := Imported(rows, t, d, a), d + [n];
    NotYet(rows, t, d, a, n);
    ImportedMore(rows, t, d, a, {n});
    UnderOne(t, d, n);
    if t[p].DirEntry? {
      assert now + ((map[p := DirEntry]) + RowsUnder(t, p, ChildNames(t, p)))
          == (now + map[p := DirEntry]) + RowsUnder(t, p, ChildNames(t, p));
      assert now + map[p := DirEntry] == now[p := DirEntry];
    } else {
      assert now + map[p := t[p]] == now[p := t[p]];
    }
  }

  lemma NotYet(rows: Table, t: Table, d: Route, a: set<Name>, n: Name)
    requires n !in a && Fresh(rows, d, a + {n})
    ensures var now := Imported(rows, t, d, a); var p := d + [n];
      p !in now && Fresh(now[p := DirEntry], p, ChildNames(t, p))
  {
    hide Visible, ChildNames;
    var now, p := Imported(rows, t, d, a), d + [n];
    ImportedFresh(rows, t, d, a, {n});
    assert p[..|d|] == d && p[|d|] == n;
    assert forall r: Route :: |p| < |r| && r[..|p|] == p ==> r[..|d|] == p[..|d|] && r[|d|] == p[|d|];
  }

  ghost function LinkTotal(s: Shape): nat {
    match s case Leaf(items) => |items| case Inner(children) => |children|
  }

  lemma StartImport(c: Codec, rows: Table, t: Table, d: Route, s: Shape)
    ensures Imported(rows, t, d, NameSet(Covered(s, 0))) == rows
    ensures |NodeManifest(c, DirTree, s).links| == LinkTotal(s)
  {
    hide RowsUnder;
    assert NameSet(Covered(s, 0)) == {};
    UnderNone(t, d);
  }

  lemma CoveredAll(s: Shape)
    ensures Covered(s, LinkTotal(s)) == Flatten(s)
  {
    match s
    case Leaf(items) => assert items[..|items|] == items;
    case Inner(children) => assert children[..|children|] == children;
  }

  lemma LinkReferenced(c: Codec, base: Store, refs: set<Ref>, a: Ref, m: Manifest, i: nat)
    requires ClosedRefs(c, base, refs) && a in refs && a.kind != Raw && a.hash in base
    requires c.decode(base[a.hash]) == Some(m) && i < |m.links|
    ensures RefOf(m.links[i]) in refs
  {
    assert Hop(c, base, a, RefOf(m.links[i]));
  }

  /** What a fan-out's i-th link leads to, and what importing it completes. */
  lemma ForChild(c: Codec, limit: nat, store: Store, rows: Table, t: Table, shapes: ShapeMap, d: Route, s: Shape, i: nat)
    requires PartOf(c, limit, store, t, shapes, d, s) && Fresh(rows, d, NameSet(Flatten(s)))
    requires s.Inner? && i < |s.children|
    ensures var l := NodeManifest(c, DirTree, s).links[i]; var child := s.children[i];
      && l.hash == NodeHash(c, DirTree, child) && l.kind == NodeKind(DirTree, child)
      && PartOf(c, limit, store, t, shapes, d, child)
      && Fresh(Imported(rows, t, d, NameSet(Covered(s, i))), d, NameSet(Flatten(child)))
      && Imported(Imported(rows, t, d, NameSet(Covered(s, i))), t, d, NameSet(Flatten(child)))
         == Imported(rows, t, d, NameSet(Covered(s, i + 1)))
  {
    PartChild(c, limit, store, t, shapes, d, s, i);
    PartListable(c, limit, store, t, shapes, d, s);
    hide PartOf, NameSet, RowsUnder, Imported, Listable, Flatten, Covered;
    ChildNamesApart(s, i);
    CoveredSnocInner(s, i);
    NameSetAppend(Covered(s, i), Flatten(s.children[i]));
    ImportedFresh(rows, t, d, NameSet(Covered(s, i)), NameSet(Flatten(s.children[i])));
    ImportedMore(rows, t, d, NameSet(Covered(s, i)), NameSet(Flatten(s.children[i])));
  }

  lemma PartListable(c: Codec, limit: nat, store: Store, t: Table, shapes: ShapeMap, d: Route, s: Shape)
    requires PartOf(c, limit, store, t, shapes, d, s)
    ensures Listable(DirTree, Flatten(s)) && Visible(t, d) && t[d].DirEntry?
  {
  }

  /** What a directory's i-th link stands for, and what inserting and importing it completes. */
  lemma ForEntry(c: Codec, limit: nat, store: Store, rows: Table, t: Table, shapes: ShapeMap, d: Route, s: Shape, i: nat)
    requires PartOf(c, limit, store, t, shapes, d, s) && Fresh(rows, d, NameSet(Flatten(s)))
    requires s.Leaf? && i < |s.items|
    ensures var l := s.items[i]; var p := d + [NameOf(l)]; var now := Imported(rows, t, d, NameSet(Covered(s, i)));
      && l.name.Some? && p in t && p !in now
      && match t[p]
         case FileEntry(hash, size, kind) =>
           && l.hash == hash && l.size == size && l.kind == kind && (kind == Raw || kind == File)
           && now[p := t[p]] == Imported(rows, t, d, NameSet(Covered(s, i + 1)))
         case DirEntry =>
           && p in shapes && l.hash == NodeHash(c, DirTree, shapes[p]) && l.kind == NodeKind(DirTree, shapes[p])
           && PartOf(c, limit, store, t, shapes, p, shapes[p])
           && Fresh(now[p := DirEntry], p, NameSet(Flatten(shapes[p])))
           && Imported(now[p := DirEntry], t, p, NameSet(Flatten(shapes[p])))
              == Imported(rows, t, d, NameSet(Covered(s, i + 1)))
  {
    assert Flatten(s) == s.items;
    PartEntry(c, limit, store, t, shapes, d, s, i);
    PartListable(c, limit, store, t, shapes, d, s);
    hide PartOf, NameSet, RowsUnder, Imported, Listable, Flatten, Covered, ChildNames, Fresh, Visible;
    LeafNamesApart(s, i);
    FreshSubset(rows, d, NameSet(Covered(s, i + 1)), NameSet(Flatten(s)));
    ImportedEntry(rows, t, d, NameSet(Covered(s, i)), NameOf(s.items[i]));
  }

  lemma FreshSubset(rows: Table, d: Route, a: set<Name>, b: set<Name>)
    requires Fresh(rows, d, b) && a <= b
    ensures Fresh(rows, d, a)
  {
  }

  // ---- The ceiling on each manifest ----

  /** A node's manifest is within the ceiling, encoded and decoded. */
  ghost predicate LightManifest(c: Codec, maxBytes: nat, s: Shape) {
    |c.encode(NodeManifest(c, DirTree, s))| <= maxBytes && DecodedCost(NodeManifest(c, DirTree, s)) <= maxBytes
  }

  ghost predicate LightNode(c: Codec, maxBytes: nat, s: Shape)
    decreases s
  {
    LightManifest(c, maxBytes, s) && (s.Inner? ==> forall i :: 0 <= i < |s.children| ==> LightNode(c, maxBytes, s.children[i]))
  }

  /** So are all manifests of the directories among these rows. */
  ghost predicate LightRows(c: Codec, maxBytes: nat, shapes: ShapeMap, rows: Table) {
    forall r :: r in rows && rows[r].DirEntry? ==> r in shapes && LightNode(c, maxBytes, shapes[r])
  }

  ghost predicate Light(c: Codec, maxBytes: nat, t: Table, shapes: ShapeMap, d: Route, s: Shape) {
    LightNode(c, maxBytes, s) && LightRows(c, maxBytes, shapes, RowsUnder(t, d, NameSet(Flatten(s))))
  }

  /** What the first `i` links lead to is light. */
  ghost predicate LightSoFar(c: Codec, maxBytes: nat, t: Table, shapes: ShapeMap, d: Route, s: Shape, i: nat)
    requires i <= LinkTotal(s)
  {
    && LightManifest(c, maxBytes, s)
    && (s.Inner? ==> forall j :: 0 <= j < i ==> LightNode(c, maxBytes, s.children[j]))
    && LightRows(c, maxBytes, shapes, RowsUnder(t, d, NameSet(Covered(s, i))))
  }

  lemma LightUnion(c: Codec, maxBytes: nat, t: Table, shapes: ShapeMap, d: Route, a: set<Name>, b: set<Name>)
    ensures LightRows(c, maxBytes, shapes, RowsUnder(t, d, a + b))
       <==> LightRows(c, maxBytes, shapes, RowsUnder(t, d, a)) && LightRows(c, maxBytes, shapes, RowsUnder(t, d, b))
  {
    hide LightNode, Visible;
    UnderUnion(t, d, a, b);
    var both, ra, rb := RowsUnder(t, d, a + b), RowsUnder(t, d, a), RowsUnder(t, d, b);
    assert forall r :: r in ra ==> r in both && both[r] == ra[r];
    assert forall r :: r in rb ==> r in both && both[r] == rb[r];
  }

  lemma LightLess(c: Codec, maxBytes: nat, t: Table, shapes: ShapeMap, d: Route, a: set<Name>, b: set<Name>)
    requires a <= b && LightRows(c, maxBytes, shapes, RowsUnder(t, d, b))
    ensures LightRows(c, maxBytes, shapes, RowsUnder(t, d, a))
  {
    hide LightRows;
    LightUnion(c, maxBytes, t, shapes, d, a, b);
    assert a + b == b;
  }

  lemma LightStart(c: Codec, maxBytes: nat, t: Table, shapes: ShapeMap, d: Route, s: Shape)
    ensures LightSoFar(c, maxBytes, t, shapes, d, s, 0) <==> LightManifest(c, maxBytes, s)
  {
    hide LightManifest;
    assert NameSet(Covered(s, 0)) == {};
    UnderNone(t, d);
  }

  lemma LightAll(c: Codec, maxBytes: nat, t: Table, shapes: ShapeMap, d: Route, s: Shape)
    ensures LightSoFar(c, maxBytes, t, shapes, d, s, LinkTotal(s)) <==> Light(c, maxBytes, t, shapes, d, s)
  {
    hide LightManifest, LightRows, RowsUnder, NameSet;
    CoveredAll(s);
  }

  /** One more child of a fan-out. */
  lemma LightChild(c: Codec, maxBytes: nat, t: Table, shapes: ShapeMap, d: Route, s: Shape, i: nat)
    requires s.Inner? && i < |s.children| && Listable(DirTree, Flatten(s))
    ensures LightSoFar(c, maxBytes, t, shapes, d, s, i + 1)
       <==> LightSoFar(c, maxBytes, t, shapes, d, s, i) && Light(c, maxBytes, t, shapes, d, s.children[i])
    ensures Light(c, maxBytes, t, shapes, d, s) ==> Light(c, maxBytes, t, shapes, d, s.children[i])
  {
    hide LightManifest, LightRows, RowsUnder, NameSet, Covered, Flatten, Listable;
    ChildNamesApart(s, i);
    CoveredSnocInner(s, i);
    NameSetAppend(Covered(s, i), Flatten(s.children[i]));
    LightUnion(c, maxBytes, t, shapes, d, NameSet(Covered(s, i)), NameSet(Flatten(s.children[i])));
    if Light(c, maxBytes, t, shapes, d, s) {
      LightLess(c, maxBytes, t, shapes, d, NameSet(Flatten(s.children[i])), NameSet(Flatten(s)));
    }
  }

  /** One more entry of a directory. */
  lemma LightEntry(c: Codec, maxBytes: nat, limit: nat, store: Store, t: Table, shapes: ShapeMap, d: Route, s: Shape, i: nat)
    requires PartOf(c, limit, store, t, shapes, d, s) && s.Leaf? && i < |s.items|
    ensures var p := d + [NameOf(s.items[i])];
      && p in t && (t[p].DirEntry? ==> p in shapes)
      && (LightSoFar(c, maxBytes, t, shapes, d, s, i + 1) <==>
           LightSoFar(c, maxBytes, t, shapes, d, s, i) && (t[p].DirEntry? ==> Light(c, maxBytes, t, shapes, p, shapes[p])))
      && (Light(c, maxBytes, t, shapes, d, s) && t[p].DirEntry? ==> Light(c, maxBytes, t, shapes, p, shapes[p]))
  {
    assert Flatten(s) == s.items;
    PartEntry(c, limit, store, t, shapes, d, s, i);
    PartListable(c, limit, store, t, shapes, d, s);
    hide PartOf, LightNode, LightManifest, LightRows, RowsUnder, NameSet, Covered, Flatten, Listable, Visible, ChildNames;
    var n := NameOf(s.items[i]);
    LeafNamesApart(s, i);
    LightUnion(c, maxBytes, t, shapes, d, NameSet(Covered(s, i)), {n});
    LightOne(c, maxBytes, t, shapes, d, n);
    if Light(c, maxBytes, t, shapes, d, s) {
      LightLess(c, maxBytes, t, shapes, d, {n}, NameSet(Flatten(s)));
    }
  }

  lemma LightOne(c: Codec, maxBytes: nat, t: Table, shapes: ShapeMap, d: Route, n: Name)
    requires Visible(t, d) && t[d].DirEntry? && d + [n] in t
    ensures var p := d + [n];
      LightRows(c, maxBytes, shapes, RowsUnder(t, d, {n})) <==>
        (t[p].DirEntry? ==> p in shapes && LightNode(c, maxBytes, shapes[p]) && LightRows(c, maxBytes, shapes, RowsUnder(t, p, ChildNames(t, p))))
  {
    UnderOne(t, d, n);
    hide LightNode, RowsUnder, Visible, ChildNames;
    var p := d + [n];
    var below := if t[p].DirEntry? then RowsUnder(t, p, ChildNames(t, p)) else map[];
    var all := RowsUnder(t, d, {n});
    BelowOnly(t, p);
    assert forall r :: r in below ==> r in all && all[r] == below[r];
  }

  lemma BelowOnly(t: Table, p: Route)
    ensures p !in RowsUnder(t, p, ChildNames(t, p))
  {
  }

  // ---- The method ----

  /** Import the directory or fan-out manifest `h` under `parent`, adding its rows to `rows`.
      On a well-formed base the result is exactly the visible rows the node stands for: all
      fan-outs flattened, all directories below included; it fails exactly where some manifest on
      the way is too large, encoded or decoded.  Rows refer only to blobs the base refers to.
      Anything malformed is reported, never imported silently. */
  method ImportDirectory(c: Codec, limit: nat, maxBytes: nat, base: Store, h: Hash, kind: LinkType, parent: Route, rows: Table,
                         ghost rank: Hash -> nat, ghost refs: set<Ref>,
                         ghost t: Table, ghost shapes: ShapeMap, ghost s: Shape)
    returns (r: Result<Table>)
    requires Acyclic(c, base, rank) && (kind == Directory || kind == Fanout)
    ensures PartOf(c, limit, base, t, shapes, parent, s) && h == NodeHash(c, DirTree, s) && kind == NodeKind(DirTree, s)
              && Fresh(rows, parent, NameSet(Flatten(s)))
            ==> if Light(c, maxBytes, t, shapes, parent, s) then r == Ok(Imported(rows, t, parent, NameSet(Flatten(s)))) else r.Err?
    ensures PartOf(c, limit, base, t, shapes, parent, s) && h == NodeHash(c, DirTree, s) && kind != NodeKind(DirTree, s)
            ==> r.Err? && (LightManifest(c, maxBytes, s) ==> r == Err(BaseKindChanged))
    ensures r.Ok? && RowsReferenced(rows, refs) && ClosedRefs(c, base, refs) && Ref(h, kind) in refs
            ==> RowsReferenced(r.value, refs)
    decreases rank(h)
  {
    hide PartOf, Flatten, NodeHash, Fresh, Imported, NameSet, RowsUnder, ClosedRefs, ValidManifest, NodeLink, Visible, Light, LightSoFar, DecodedCost;
    ghost var known := PartOf(c, limit, base, t, shapes, parent, s) && h == NodeHash(c, DirTree, s);
    ghost var good := known && kind == NodeKind(DirTree, s) && Fresh(rows, parent, NameSet(Flatten(s)));
    ghost var safe := RowsReferenced(rows, refs) && ClosedRefs(c, base, refs) && Ref(h, kind) in refs;
    if known { PartManifest(c, limit, base, t, shapes, parent, s); }
    if good {
      LightStart(c, maxBytes, t, shapes, parent, s);
      LightAll(c, maxBytes, t, shapes, parent, s);
      LightOwn(c, maxBytes, t, shapes, parent, s);
    }
    if h !in base {
      return Err(BaseMissing);
    }
    if |base[h]| > maxBytes {
      return Err(BaseMalformed);
    }
    var decoded := c.decode(base[h]);
    if decoded.None? {
      return Err(BaseMalformed);
    }
    var m := decoded.value;
    var valid := CheckManifest(m, limit);
    if DecodedCost(m) > maxBytes || !valid {
      return Err(BaseMalformed);
    }
    if m.kind != kind {
      return Err(BaseKindChanged);
    }
    var now := rows;
    if good { StartImport(c, rows, t, parent, s); }
    for i := 0 to |m.links|
      invariant good ==> m == NodeManifest(c, DirTree, s) && |m.links| == LinkTotal(s)
      invariant good ==> now == Imported(rows, t, parent, NameSet(Covered(s, i)))
      invariant good ==> LightSoFar(c, maxBytes, t, shapes, parent, s, i)
      invariant safe ==> RowsReferenced(now, refs)
    {
      var link := m.links[i];
      if safe { LinkReferenced(c, base, refs, Ref(h, kind), m, i); }
      if m.kind == Fanout {
        FanoutKinds(m, limit, i);
        ghost var child := if good then s.children[i] else s;
        if good {
          ForChild(c, limit, base, rows, t, shapes, parent, s, i);
          PartListable(c, limit, base, t, shapes, parent, s);
          LightChild(c, maxBytes, t, shapes, parent, s, i);
        }
        now :- ImportDirectory(c, limit, maxBytes, base, link.hash, link.kind, parent, now, rank, refs, t, shapes, child);
      } else {
        var path := parent + [NameOf(link)];
        if good {
          ForEntry(c, limit, base, rows, t, shapes, parent, s, i);
          LightEntry(c, maxBytes, limit, base, t, shapes, parent, s, i);
        }
        if path in now {
          return Err(DuplicateRow);
        }
        if link.kind == Raw || link.kind == File {
          now := now[path := FileEntry(link.hash, link.size, link.kind)];
        } else {
          now := now[path := DirEntry];
          ghost var child := if good then shapes[path] else s;
          now :- ImportDirectory(c, limit, maxBytes, base, link.hash, link.kind, path, now, rank, refs, t, shapes, child);
        }
      }
    }
    if good { CoveredAll(s); }
    return Ok(now);
  }

  lemma LightOwn(c: Codec, maxBytes: nat, t: Table, shapes: ShapeMap, d: Route, s: Shape)
    ensures Light(c, maxBytes, t, shapes, d, s) ==> LightManifest(c, maxBytes, s)
  {
    hide LightManifest, LightRows;
  }

  lemma FanoutKinds(m: Manifest, limit: nat, i: nat)
    requires ValidManifest(m, limit) && m.kind == Fanout && i < |m.links|
    ensures m.links[i].kind == Directory || m.links[i].kind == Fanout
  {
  }
}
