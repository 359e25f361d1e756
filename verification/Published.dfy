/** Materialising a tree that was built: which references lie below its root, and when all of them
    can be fetched. */
module Published {
  import opened Manifests
  import opened Shapes
  import opened Grouping
  import opened Tables
  import opened Reader
  import opened FileTrees
  import opened Trees
  import opened RoundTrip
  import opened Reachability
  import opened Materialize

  /** `x` is `s` or one of the nodes below it. */
  ghost predicate Part(s: Shape, x: Shape)
    decreases s
  {
    x == s || (s.Inner? && exists i :: 0 <= i < |s.children| && Part(s.children[i], x))
  }

  lemma PartBelow(s: Shape, x: Shape, i: nat)
    requires Part(s, x) && x.Inner? && i < |x.children|
    ensures Part(s, x.children[i])
    decreases s
  {
    if x == s {
      assert Part(s.children[i], x.children[i]);
    } else {
      var j :| 0 <= j < |s.children| && Part(s.children[j], x);
      PartBelow(s.children[j], x, i);
    }
  }

  lemma {:induction false} PartWalkable(c: Codec, limit: nat, store: Store, s: Shape, x: Shape)
    requires Walkable(c, limit, store, s) && Part(s, x)
    ensures Walkable(c, limit, store, x) && forall y :: 0 <= y < |Flatten(x)| ==> Flatten(x)[y] in Flatten(s)
    decreases s
  {
    hide Walkable;
    if x != s {
      var j :| 0 <= j < |s.children| && Part(s.children[j], x);
      WalkableChildren(c, limit, store, s);
      PartWalkable(c, limit, store, s.children[j], x);
      forall y | 0 <= y < |Flatten(x)| ensures Flatten(x)[y] in Flatten(s) {
        assert Flatten(x)[y] in Flatten(s.children[j]);
        var z :| 0 <= z < |Flatten(s.children[j])| && Flatten(s.children[j])[z] == Flatten(x)[y];
        EntryAt(s.children, j, z);
      }
    }
  }

  lemma {:induction false} PartPlannable(c: Codec, limit: nat, store: Store, s: Shape, x: Shape)
    requires Plannable(c, limit, store, s) && Part(s, x)
    ensures Plannable(c, limit, store, x) && forall y :: 0 <= y < |Flatten(x)| ==> Flatten(x)[y] in Flatten(s)
    decreases s
  {
    hide Plannable;
    if x != s {
      var j :| 0 <= j < |s.children| && Part(s.children[j], x);
      ChildPlannable(c, limit, store, s, j);
      PartPlannable(c, limit, store, s.children[j], x);
      forall y | 0 <= y < |Flatten(x)| ensures Flatten(x)[y] in Flatten(s) {
        assert Flatten(x)[y] in Flatten(s.children[j]);
        var z :| 0 <= z < |Flatten(s.children[j])| && Flatten(s.children[j])[z] == Flatten(x)[y];
        EntryAt(s.children, j, z);
      }
    }
  }

  // ---- The references of a built tree ----

  /** A tree as a build leaves it. */
  ghost predicate BuiltTree(c: Codec, k: nat, store: Store, files: Files)
    requires k >= 2
  {
    && Faithful(c) && Acceptable(files) && Stored(c, k, store, files) && Sizable(c, k, BuiltTable(c, k, files))
    && forall r :: r in files ==> |files[r]| <= MAX_SAFE
  }

  ghost predicate Reads(files: Files, r: Route) {
    r in files && Unshadowed(files, r)
  }

  ghost predicate DirRef(c: Codec, k: nat, files: Files, r: Ref, d: Route, x: Shape)
    requires k >= 2
  {
    var t := BuiltTable(c, k, files);
    && Visible(t, d) && t[d].DirEntry? && d in Canonical(c, k, t) && Part(Canonical(c, k, t)[d], x)
    && r == Ref(NodeHash(c, DirTree, x), NodeKind(DirTree, x))
  }

  ghost predicate FileRef(c: Codec, k: nat, files: Files, r: Ref, f: Route, x: Shape)
    requires k >= 2
  {
    && Reads(files, f) && FileKind(files[f]) == File && Part(FileShape(c, k, files[f]), x)
    && r == Ref(NodeHash(c, FileTree, x), File)
  }

  /** A directory node, a file node or a raw blob of a file that can be reached. */
  ghost predicate InTree(c: Codec, k: nat, files: Files, r: Ref)
    requires k >= 2
  {
    || r.kind == Raw
    || (exists d, x :: DirRef(c, k, files, r, d, x))
    || (exists f, x :: FileRef(c, k, files, r, f, x))
  }

  /** No file that can be reached is empty. */
  ghost predicate NoneEmpty(files: Files) {
    forall f :: Reads(files, f) ==> files[f] != []
  }

  /** A visible row is a directory or a file that can be reached. */
  lemma VisibleRow(c: Codec, k: nat, files: Files, r: Route)
    requires k >= 2 && Visible(BuiltTable(c, k, files), r)
    ensures var t := BuiltTable(c, k, files);
      && (t[r].DirEntry? ==> r in Canonical(c, k, t))
      && (t[r].FileEntry? ==> Reads(files, r) && t[r] == FileEntry(FileHash(c, k, files[r]), |files[r]|, FileKind(files[r])))
  {
    hide BuiltTable, FileHash, FileKind, DirShape;
    BuiltVisible(c, k, files, r);
    BuiltRow(c, k, files, r);
  }

  /** An item of a directory's node is the link of a visible row. */
  lemma ItemRow(c: Codec, k: nat, store: Store, files: Files, d: Route, item: Link) returns (r: Route)
    requires k >= 2 && BuiltTree(c, k, store, files) && Visible(BuiltTable(c, k, files), d) && BuiltTable(c, k, files)[d].DirEntry?
    requires d in Canonical(c, k, BuiltTable(c, k, files)) && item in Flatten(Canonical(c, k, BuiltTable(c, k, files))[d])
    ensures var t := BuiltTable(c, k, files); var shapes := Canonical(c, k, t);
      && Visible(t, r) && r != [] && (t[r].DirEntry? ==> r in shapes) && item == RowLink(c, t, shapes, r)
  {
    hide BuiltTable, Canonical, Stored, Sizable, Walkable, RowLink, Visible, Flatten, Faithful;
    var t := BuiltTable(c, k, files);
    var shapes := Canonical(c, k, t);
    BuiltRealizes(c, k, store, files);
    VisibleIsRow(t, d);
    var items := Flatten(shapes[d]);
    var x :| 0 <= x < |items| && items[x] == item;
    r := d + [NameOf(items[x])];
    VisibleChild(t, d, NameOf(items[x]));
  }

  lemma VisibleIsRow(t: Table, d: Route)
    requires Visible(t, d)
    ensures d in t
  {
  }

  /** What an item of a directory node links to. */
  lemma ItemRef(c: Codec, k: nat, store: Store, files: Files, d: Route, item: Link)
    requires k >= 2 && BuiltTree(c, k, store, files) && Visible(BuiltTable(c, k, files), d) && BuiltTable(c, k, files)[d].DirEntry?
    requires d in Canonical(c, k, BuiltTable(c, k, files)) && item in Flatten(Canonical(c, k, BuiltTable(c, k, files))[d])
    ensures InTree(c, k, files, RefOf(item))
    ensures item.kind == Raw ==> exists f :: Reads(files, f) && FileKind(files[f]) == Raw && item.hash == c.digest(files[f]) && item.size == |files[f]|
  {
    var r := ItemRow(c, k, store, files, d, item);
    VisibleRow(c, k, files, r);
    hide BuiltTable, Canonical, Stored, Sizable, Visible, Flatten, Faithful, DirShape, FileShape, NodeHash, Reads;
    var t := BuiltTable(c, k, files);
    if t[r].DirEntry? {
      assert Part(Canonical(c, k, t)[r], Canonical(c, k, t)[r]);
      assert DirRef(c, k, files, RefOf(item), r, Canonical(c, k, t)[r]);
    } else if FileKind(files[r]) == File {
      assert Part(FileShape(c, k, files[r]), FileShape(c, k, files[r]));
      assert FileRef(c, k, files, RefOf(item), r, FileShape(c, k, files[r]));
    }
  }

  lemma DirNode(c: Codec, k: nat, store: Store, files: Files, r: Ref, d: Route, x: Shape)
    requires k >= 2 && BuiltTree(c, k, store, files) && DirRef(c, k, files, r, d, x)
    ensures d in Canonical(c, k, BuiltTable(c, k, files))
    ensures Walkable(c, k, store, x) && Load(c, k, store, r.hash) == Some(NodeManifest(c, DirTree, x))
    ensures forall y :: 0 <= y < |Flatten(x)| ==> Flatten(x)[y] in Flatten(Canonical(c, k, BuiltTable(c, k, files))[d])
  {
    hide BuiltTable, Canonical, Stored, Sizable, Visible, Flatten, Faithful, NodeManifest, NodeHash, Load, Present, Listable, Compact, ListsRows, Part;
    BuiltRealizes(c, k, store, files);
    VisibleIsRow(BuiltTable(c, k, files), d);
    VisibleRow(c, k, files, d);
    PartWalkable(c, k, store, Canonical(c, k, BuiltTable(c, k, files))[d], x);
    LoadNode(c, DirTree, k, store, x);
  }

  lemma FileNode(c: Codec, k: nat, store: Store, files: Files, r: Ref, f: Route, x: Shape)
    requires k >= 2 && BuiltTree(c, k, store, files) && FileRef(c, k, files, r, f, x)
    ensures Plannable(c, k, store, x) && Load(c, k, store, r.hash) == Some(NodeManifest(c, FileTree, x))
    ensures forall y :: 0 <= y < |Flatten(x)| ==> Flatten(x)[y] in ChunkLinks(c, Chunks(files[f]))
  {
    hide BuiltTable, Sizable, Flatten, Faithful, NodeManifest, NodeHash, Load, Present, Listable, Compact, Part, FileShape, TreeStored, Unshadowed;
    var s := FileShape(c, k, files[f]);
    var h := FileShapeProperties(c, k, files[f]);
    assert FileStored(c, k, store, files[f]);
    assert Plannable(c, k, store, s);
    PartPlannable(c, k, store, s, x);
    LoadNode(c, FileTree, k, store, x);
  }

  /** Links do not lead out of the tree. */
  lemma HopStays(c: Codec, k: nat, store: Store, files: Files, a: Ref, b: Ref)
    requires k >= 2 && BuiltTree(c, k, store, files) && InTree(c, k, files, a) && Hop(c, store, a, b)
    ensures InTree(c, k, files, b)
  {
    hide BuiltTree, DirRef, FileRef, Walkable, Plannable;
    if d, x :| DirRef(c, k, files, a, d, x) {
      DirNode(c, k, store, files, a, d, x);
      var m := NodeManifest(c, DirTree, x);
      var i :| 0 <= i < |m.links| && RefOf(m.links[i]) == b;
      DirLink(c, k, store, files, a, d, x, i);
    } else {
      var f, x :| FileRef(c, k, files, a, f, x);
      FileNode(c, k, store, files, a, f, x);
      var m := NodeManifest(c, FileTree, x);
      var i :| 0 <= i < |m.links| && RefOf(m.links[i]) == b;
      FileLink(c, k, store, files, a, f, x, i);
    }
  }

  lemma DirLink(c: Codec, k: nat, store: Store, files: Files, r: Ref, d: Route, x: Shape, i: nat)
    requires k >= 2 && BuiltTree(c, k, store, files) && DirRef(c, k, files, r, d, x) && i < |NodeManifest(c, DirTree, x).links|
    ensures InTree(c, k, files, RefOf(NodeManifest(c, DirTree, x).links[i]))
    ensures var l := NodeManifest(c, DirTree, x).links[i];
      l.kind == Raw ==> exists f :: Reads(files, f) && FileKind(files[f]) == Raw && l.hash == c.digest(files[f]) && l.size == |files[f]|
  {
    if x.Leaf? {
      DirNode(c, k, store, files, r, d, x);
      hide BuiltTree, BuiltTable, Canonical, Visible, Part, Reads, FileKind, Walkable, Load, InTree;
      assert NodeManifest(c, DirTree, x).links[i] == Flatten(x)[i];
      ItemRef(c, k, store, files, d, Flatten(x)[i]);
    } else {
      hide BuiltTree, BuiltTable, Canonical, Visible, Part, InTree;
      DirBelow(c, k, files, r, d, x, i);
    }
  }

  lemma DirBelow(c: Codec, k: nat, files: Files, r: Ref, d: Route, x: Shape, i: nat)
    requires k >= 2 && DirRef(c, k, files, r, d, x) && x.Inner? && i < |NodeManifest(c, DirTree, x).links|
    ensures InTree(c, k, files, RefOf(NodeManifest(c, DirTree, x).links[i])) && NodeManifest(c, DirTree, x).links[i].kind != Raw
  {
    hide BuiltTable, Canonical, Visible, Part, FileRef, NodeHash;
    PartBelow(Canonical(c, k, BuiltTable(c, k, files))[d], x, i);
    assert NodeManifest(c, DirTree, x).links[i] == NodeLink(c, DirTree, x.children[i]);
    LinkRef(c, x.children[i]);
    assert DirRef(c, k, files, RefOf(NodeLink(c, DirTree, x.children[i])), d, x.children[i]);
  }

  lemma LinkRef(c: Codec, s: Shape)
    ensures RefOf(NodeLink(c, DirTree, s)) == Ref(NodeHash(c, DirTree, s), NodeKind(DirTree, s)) && NodeKind(DirTree, s) != Raw
  {
  }

  lemma FileLink(c: Codec, k: nat, store: Store, files: Files, r: Ref, f: Route, x: Shape, i: nat)
    requires k >= 2 && BuiltTree(c, k, store, files) && FileRef(c, k, files, r, f, x) && i < |NodeManifest(c, FileTree, x).links|
    ensures InTree(c, k, files, RefOf(NodeManifest(c, FileTree, x).links[i]))
    ensures var l := NodeManifest(c, FileTree, x).links[i]; l.kind == Raw ==> l in ChunkLinks(c, Chunks(files[f]))
  {
    FileNode(c, k, store, files, r, f, x);
    hide BuiltTree, Part, Reads, FileKind, FileShape, Load, ChunkLinks, Chunks;
    if x.Leaf? {
      assert NodeManifest(c, FileTree, x).links[i] == Flatten(x)[i];
      assert Flatten(x)[i].kind == Raw;
    } else {
      PartBelow(FileShape(c, k, files[f]), x, i);
      assert FileRef(c, k, files, RefOf(NodeManifest(c, FileTree, x).links[i]), f, x.children[i]);
    }
  }

  lemma DirComplete(c: Codec, k: nat, store: Store, files: Files, r: Ref, d: Route, x: Shape)
    requires k >= 2 && BuiltTree(c, k, store, files) && DirRef(c, k, files, r, d, x)
    requires NoneEmpty(files)
    ensures Complete(c, k, store, r)
  {
    DirNode(c, k, store, files, r, d, x);
    DirKind(c, k, files, r, d, x);
    hide BuiltTree, DirRef, Walkable, Reads, Load, FileKind, NodeManifest, BuiltTable, Canonical, Flatten, NoneEmpty, Deliverable;
    var m := NodeManifest(c, DirTree, x);
    forall i | 0 <= i < |m.links| && m.links[i].kind == Raw ensures Deliverable(store, m.links[i]) {
      DirLink(c, k, store, files, r, d, x, i);
      RawDeliverable(c, k, store, files, m.links[i]);
    }
  }

  lemma RawDeliverable(c: Codec, k: nat, store: Store, files: Files, l: Link)
    requires k >= 2 && BuiltTree(c, k, store, files) && NoneEmpty(files)
    requires exists f :: Reads(files, f) && FileKind(files[f]) == Raw && l.hash == c.digest(files[f]) && l.size == |files[f]|
    ensures Deliverable(store, l)
  {
    hide BuiltTree, FileKind, Unshadowed;
    var f :| Reads(files, f) && FileKind(files[f]) == Raw && l.hash == c.digest(files[f]) && l.size == |files[f]|;
    RawHeld(c, k, store, files, f);
  }

  lemma FileComplete(c: Codec, k: nat, store: Store, files: Files, r: Ref, f: Route, x: Shape)
    requires k >= 2 && BuiltTree(c, k, store, files) && FileRef(c, k, files, r, f, x)
    ensures Complete(c, k, store, r)
  {
    FileNode(c, k, store, files, r, f, x);
    FileIsFile(c, k, files, r, f, x);
    hide BuiltTree, FileRef, Plannable, Reads, Load, FileKind, NodeManifest, ChunkLinks, Chunks, Flatten;
    var m := NodeManifest(c, FileTree, x);
    forall i | 0 <= i < |m.links| && m.links[i].kind == Raw ensures Deliverable(store, m.links[i]) {
      FileLink(c, k, store, files, r, f, x, i);
      ChunkHeld(c, k, store, files, f, m.links[i]);
    }
  }

  /** Where no file that can be reached is empty, every manifest of the tree is complete. */
  lemma TreeComplete(c: Codec, k: nat, store: Store, files: Files, r: Ref)
    requires k >= 2 && BuiltTree(c, k, store, files) && InTree(c, k, files, r) && r.kind != Raw
    requires NoneEmpty(files)
    ensures Complete(c, k, store, r)
  {
    hide BuiltTree, DirRef, FileRef, Reads, Complete;
    if d, x :| DirRef(c, k, files, r, d, x) {
      DirComplete(c, k, store, files, r, d, x);
    } else {
      var f, x :| FileRef(c, k, files, r, f, x);
      FileComplete(c, k, store, files, r, f, x);
    }
  }

  lemma DirKind(c: Codec, k: nat, files: Files, r: Ref, d: Route, x: Shape)
    requires k >= 2 && DirRef(c, k, files, r, d, x)
    ensures r.kind == NodeManifest(c, DirTree, x).kind
  {
    hide BuiltTable, Canonical, Visible, Part;
  }

  lemma FileIsFile(c: Codec, k: nat, files: Files, r: Ref, f: Route, x: Shape)
    requires k >= 2 && FileRef(c, k, files, r, f, x)
    ensures r.kind == NodeManifest(c, FileTree, x).kind && Reads(files, f) && FileKind(files[f]) == File
  {
    hide Part, FileShape;
  }

  lemma RawHeld(c: Codec, k: nat, store: Store, files: Files, f: Route)
    requires k >= 2 && BuiltTree(c, k, store, files) && Reads(files, f) && FileKind(files[f]) == Raw
    ensures HoldsBlob(c, store, files[f])
  {
    hide BuiltTable, TreeStored, Sizable, Faithful;
    assert FileStored(c, k, store, files[f]);
  }

  lemma ChunkHeld(c: Codec, k: nat, store: Store, files: Files, f: Route, l: Link)
    requires k >= 2 && BuiltTree(c, k, store, files) && Reads(files, f) && FileKind(files[f]) == File
    requires l in ChunkLinks(c, Chunks(files[f]))
    ensures Deliverable(store, l)
  {
    hide BuiltTable, TreeStored, Sizable, Faithful, FileShape;
    assert FileStored(c, k, store, files[f]);
    ChunksNonEmpty(files[f]);
    var i :| 0 <= i < |Chunks(files[f])| && l == ChunkLink(c, Chunks(files[f])[i]);
  }

  lemma {:induction false} ChainInTree(c: Codec, k: nat, store: Store, files: Files, p: seq<Ref>, i: nat)
    requires k >= 2 && BuiltTree(c, k, store, files) && Chain(c, store, p) && InTree(c, k, files, p[0]) && i < |p|
    ensures InTree(c, k, files, p[i])
  {
    hide BuiltTree, InTree, Hop;
    if i > 0 {
      ChainInTree(c, k, store, files, p, i - 1);
      assert Hop(c, store, p[i - 1], p[i - 1 + 1]);
      HopStays(c, k, store, files, p[i - 1], p[i]);
    }
  }

  // ---- What can be reached is below the root ----

  /** Every item of a reachable node is reachable. */
  lemma {:induction false} ItemsReached(c: Codec, limit: nat, store: Store, root: Ref, s: Shape, y: nat)
    requires Faithful(c) && Walkable(c, limit, store, s) && y < |Flatten(s)|
    requires Reachable(c, store, root, Ref(NodeHash(c, DirTree, s), NodeKind(DirTree, s)))
    ensures Reachable(c, store, root, RefOf(Flatten(s)[y]))
    decreases s
  {
    LoadNode(c, DirTree, limit, store, s);
    hide Reachable, Faithful, Walkable, NodeHash;
    var r := Ref(NodeHash(c, DirTree, s), NodeKind(DirTree, s));
    if s.Leaf? {
      LoadedHop(c, limit, store, r.hash, r.kind, y);
      ReachStep(c, store, root, r, RefOf(s.items[y]));
    } else {
      var i, z := Locate(s.children, y);
      WalkableChildren(c, limit, store, s);
      LoadedHop(c, limit, store, r.hash, r.kind, i);
      var child := s.children[i];
      ReachStep(c, store, root, r, Ref(NodeHash(c, DirTree, child), NodeKind(DirTree, child)));
      ItemsReached(c, limit, store, root, child, z);
    }
  }

  ghost function TopRef(c: Codec, shapes: ShapeMap): Ref
    requires [] in shapes
  {
    Ref(NodeHash(c, DirTree, shapes[[]]), NodeKind(DirTree, shapes[[]]))
  }

  /** The link of every visible row is reachable from the root. */
  lemma {:induction false} RowReached(c: Codec, limit: nat, store: Store, t: Table, shapes: ShapeMap, r: Route)
    requires Faithful(c) && Realizes(c, limit, store, t, shapes) && [] in shapes && Visible(t, r) && r != []
    ensures (t[r].DirEntry? ==> r in shapes) && Reachable(c, store, TopRef(c, shapes), RefOf(RowLink(c, t, shapes, r)))
    decreases |r|, 0
  {
    hide Walkable, RowLink, Reachable, Faithful, TopRef, Flatten;
    var d, n := r[..|r| - 1], r[|r| - 1];
    assert r == d + [n];
    ParentVisible(t, r);
    DirReached(c, limit, store, t, shapes, d);
    hide Visible;
    var items := Flatten(shapes[d]);
    assert Lists(items, n);
    var y :| 0 <= y < |items| && items[y].name == Some(n);
    ItemsReached(c, limit, store, TopRef(c, shapes), shapes[d], y);
    assert NameOf(items[y]) == n;
  }

  lemma ParentVisible(t: Table, r: Route)
    requires Visible(t, r) && r != []
    ensures var d := r[..|r| - 1]; Visible(t, d) && d in t && t[d].DirEntry? && r in t
  {
    var d := r[..|r| - 1];
    forall i | 0 <= i < |d| ensures d[..i] == r[..i] {
    }
  }

  lemma {:induction false} DirReached(c: Codec, limit: nat, store: Store, t: Table, shapes: ShapeMap, d: Route)
    requires Faithful(c) && Realizes(c, limit, store, t, shapes) && [] in shapes && Visible(t, d) && d in t && t[d].DirEntry?
    ensures d in shapes && Reachable(c, store, TopRef(c, shapes), Ref(NodeHash(c, DirTree, shapes[d]), NodeKind(DirTree, shapes[d])))
    decreases |d|, 1
  {
    hide Walkable, Reachable, Faithful, NodeHash, ListsRows, Visible;
    if d == [] {
      ReachSelf(c, store, TopRef(c, shapes));
    } else {
      RowReached(c, limit, store, t, shapes, d);
    }
  }

  // ---- Exactly when a built tree can be materialised ----

  /** The empty blob is no manifest. */
  ghost predicate NoEmptyManifest(c: Codec) {
    c.decode([]).None?
  }

  /** Every manifest of a built tree is complete if the root fits one manifest and no file that can
      be read is empty; and if one is empty, an empty blob lies below the root. */
  lemma MaterializableIff(c: Codec, k: nat, store: Store, files: Files)
    requires k >= 2 && BuiltTree(c, k, store, files) && NoEmptyManifest(c)
    ensures var t := BuiltTable(c, k, files); var root := RootHash(c, k, t);
      var fine := |ChildNames(t, [])| <= k && NoneEmpty(files);
      (fine ==> AllComplete(c, k, store, root)) && (NothingEmpty(c, k, store, root) ==> fine)
  {
    hide BuiltTree, BuiltTable, ChildNames, RootHash, AllComplete, NothingEmpty, NoneEmpty;
    var t := BuiltTable(c, k, files);
    if |ChildNames(t, [])| <= k {
      if NoneEmpty(files) {
        BuiltComplete(c, k, store, files);
      } else {
        EmptyBelow(c, k, store, files);
      }
    } else {
      FanOutRoot(c, k, store, files);
    }
  }

  lemma RootInTree(c: Codec, k: nat, store: Store, files: Files)
    requires k >= 2 && BuiltTree(c, k, store, files) && |ChildNames(BuiltTable(c, k, files), [])| <= k
    ensures InTree(c, k, files, Ref(RootHash(c, k, BuiltTable(c, k, files)), Directory))
    ensures [] in Canonical(c, k, BuiltTable(c, k, files))
    ensures TopRef(c, Canonical(c, k, BuiltTable(c, k, files))) == Ref(RootHash(c, k, BuiltTable(c, k, files)), Directory)
    ensures Realizes(c, k, store, BuiltTable(c, k, files), Canonical(c, k, BuiltTable(c, k, files)))
  {
    hide BuiltTable, Canonical, ChildNames, RootHash, NodeHash, Sizable, Stored, Realizes;
    var t := BuiltTable(c, k, files);
    BuiltRoot(c, k, files);
    RootKind(c, k, t);
    BuiltRealizes(c, k, store, files);
    var s := Canonical(c, k, t)[[]];
    assert Part(s, s);
    assert Visible(t, []);
    assert DirRef(c, k, files, Ref(RootHash(c, k, t), Directory), [], s);
  }

  lemma BuiltComplete(c: Codec, k: nat, store: Store, files: Files)
    requires k >= 2 && BuiltTree(c, k, store, files) && |ChildNames(BuiltTable(c, k, files), [])| <= k && NoneEmpty(files)
    ensures AllComplete(c, k, store, RootHash(c, k, BuiltTable(c, k, files)))
  {
    hide BuiltTree, BuiltTable, ChildNames, RootHash, NoneEmpty, Complete, InTree, Reachable, Realizes, Canonical, TopRef;
    RootInTree(c, k, store, files);
    var root := RootHash(c, k, BuiltTable(c, k, files));
    forall r: Ref | r.kind != Raw && Reachable(c, store, Ref(root, Directory), r) ensures Complete(c, k, store, r) {
      ReachedInTree(c, k, store, files, Ref(root, Directory), r);
      TreeComplete(c, k, store, files, r);
    }
  }

  lemma ReachedInTree(c: Codec, k: nat, store: Store, files: Files, root: Ref, r: Ref)
    requires k >= 2 && BuiltTree(c, k, store, files) && InTree(c, k, files, root) && Reachable(c, store, root, r)
    ensures InTree(c, k, files, r)
  {
    hide BuiltTree, InTree, Hop;
    var p :| Chain(c, store, p) && p[0] == root && p[|p| - 1] == r;
    ChainInTree(c, k, store, files, p, |p| - 1);
  }

  lemma EmptyBelow(c: Codec, k: nat, store: Store, files: Files)
    requires k >= 2 && BuiltTree(c, k, store, files) && NoEmptyManifest(c) && |ChildNames(BuiltTable(c, k, files), [])| <= k
    requires !NoneEmpty(files)
    ensures !NothingEmpty(c, k, store, RootHash(c, k, BuiltTable(c, k, files)))
  {
    hide BuiltTree, BuiltTable, ChildNames, RootHash, Unshadowed, Needs, FileKind;
    var f :| Reads(files, f) && files[f] == [];
    EmptyIsRaw();
    RawHeld(c, k, store, files, f);
    FileNeeded(c, k, store, files, f);
    assert Load(c, k, store, c.digest([])).None?;
  }

  lemma EmptyIsRaw()
    ensures FileKind([]) == Raw
  {
    ChunksNonEmpty([]);
  }

  /** A one-blob file that can be read is needed by the root. */
  lemma FileNeeded(c: Codec, k: nat, store: Store, files: Files, f: Route)
    requires k >= 2 && BuiltTree(c, k, store, files) && |ChildNames(BuiltTable(c, k, files), [])| <= k
    requires Reads(files, f) && FileKind(files[f]) == Raw
    ensures Needs(c, store, RootHash(c, k, BuiltTable(c, k, files)), c.digest(files[f]))
  {
    hide BuiltTable, ChildNames, RootHash, Canonical, Reachable, Visible, Sizable, Stored, Realizes, TopRef, InTree, Faithful;
    var t := BuiltTable(c, k, files);
    RootInTree(c, k, store, files);
    BuiltVisible(c, k, files, f);
    BuiltRow(c, k, files, f);
    RowReached(c, k, store, t, Canonical(c, k, t), f);
    assert RowLink(c, t, Canonical(c, k, t), f).hash == c.digest(files[f]);
  }

  lemma FanOutRoot(c: Codec, k: nat, store: Store, files: Files)
    requires k >= 2 && BuiltTree(c, k, store, files) && |ChildNames(BuiltTable(c, k, files), [])| > k
    ensures !NothingEmpty(c, k, store, RootHash(c, k, BuiltTable(c, k, files)))
  {
    hide BuiltTable, Sizable, Stored, Canonical, ChildNames, RootHash, NodeHash, ListsRows, Present, Listable, Compact;
    var t := BuiltTable(c, k, files);
    BuiltRoot(c, k, files);
    BuiltRealizes(c, k, store, files);
    RootKind(c, k, t);
    LoadNode(c, DirTree, k, store, Canonical(c, k, t)[[]]);
  }

  /** A published tree can be taken as a base exactly when its root fits one manifest and no file
      that can be read in it is empty. */
  method MaterializeBuilt(c: Codec, k: nat, store: Store, ghost files: Files, root: Hash)
    returns (hashes: Option<seq<Hash>>, total: nat, inventory: Store, ghost refs: set<Ref>)
    requires k >= 2 && BuiltTree(c, k, store, files) && NoEmptyManifest(c) && root == RootHash(c, k, BuiltTable(c, k, files))
    ensures hashes.Some? <==> |ChildNames(BuiltTable(c, k, files), [])| <= k && NoneEmpty(files)
    ensures hashes.Some? ==> Extends(inventory, store) && ClosedRefs(c, inventory, refs) && Ref(root, Directory) in refs
  {
    MaterializableIff(c, k, store, files);
    hide BuiltTree, BuiltTable, ChildNames, AllComplete, NothingEmpty, ClosedRefs, Extends;
    hashes, total, inventory, refs := MaterializeRoot(c, k, store, root);
  }
}
