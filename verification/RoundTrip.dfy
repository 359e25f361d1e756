/** The two central laws of the tree format: what was written is read back, and building on a
    base is building from scratch. */
module RoundTrip {
  import opened NameOrder
  import opened Manifests
  import opened Shapes
  import opened Grouping
  import opened Tables
  import opened Reader
  import opened FileTrees
  import opened Trees

  type Files = map<Route, Bytes>

  ghost function FileRows(c: Codec, k: nat, files: Files): Table
    requires k >= 2
  {
    map r | r in files :: FileEntry(FileHash(c, k, files[r]), |files[r]|, FileKind(files[r]))
  }

  /** The table of a build from scratch. */
  ghost function BuiltTable(c: Codec, k: nat, files: Files): Table
    requires k >= 2
  {
    Overlay(map[], FileRows(c, k, files))
  }

  ghost function RootHash(c: Codec, k: nat, t: Table): Hash
    requires k >= 2
  {
    NodeHash(c, DirTree, DirShape(c, k, t, []))
  }

  /** GET of a path under a root. */
  ghost function Get(c: Codec, limit: nat, store: Store, root: Hash, segs: seq<Name>, depth: nat, output: nat): Reply {
    if segs == [] then NoReply(Absent)
    else
      match Walk(c, limit, store, root, Directory, segs, depth)
      case Found(l) => Deliver(c, limit, store, l, depth, output)
      case other => NoReply(other)
  }

  /** Routes the writer accepts. */
  ghost predicate SafeFiles(files: Files) {
    forall r :: r in files ==> r != [] && forall i :: 0 <= i < |r| ==> SafeName(r[i])
  }

  /** ... and at least one of them, without which there is no root. */
  ghost predicate Acceptable(files: Files) {
    files.Keys != {} && SafeFiles(files)
  }

  /** Everything a build writes is in the store. */
  ghost predicate Stored(c: Codec, k: nat, store: Store, files: Files)
    requires k >= 2
  {
    TreeStored(c, k, store, BuiltTable(c, k, files)) && forall r :: r in files ==> FileStored(c, k, store, files[r])
  }

  /** No file lies on the way to `r`. */
  ghost predicate Unshadowed(files: Files, r: Route) {
    forall i :: 0 <= i < |r| ==> r[..i] !in files
  }

  lemma BuiltRow(c: Codec, k: nat, files: Files, r: Route)
    requires k >= 2
    ensures var t := BuiltTable(c, k, files);
      && (r in t <==> r in files || Above(files.Keys, r))
      && (r in files ==> t[r] == FileEntry(FileHash(c, k, files[r]), |files[r]|, FileKind(files[r])))
      && (r in t && r !in files ==> t[r] == DirEntry)
  {
    hide FileHash, FileKind;
    assert FileRows(c, k, files).Keys == files.Keys;
  }

  lemma BuiltRoot(c: Codec, k: nat, files: Files)
    requires k >= 2 && Acceptable(files)
    ensures [] in BuiltTable(c, k, files) && BuiltTable(c, k, files)[[]] == DirEntry
  {
    var r :| r in files;
    assert r[..0] == [] && Above(files.Keys, []);
    BuiltRow(c, k, files, []);
  }

  lemma BuiltSafe(c: Codec, k: nat, files: Files)
    requires k >= 2 && Acceptable(files)
    ensures SafeRoutes(BuiltTable(c, k, files)) && FileKinds(BuiltTable(c, k, files))
  {
    hide SafeName, BuiltTable, FileHash;
    var t := BuiltTable(c, k, files);
    forall r, i | r in t && 0 <= i < |r| ensures SafeName(r[i]) {
      BuiltRow(c, k, files, r);
      if r !in files {
        var f :| f in files.Keys && |r| < |f| && f[..|r|] == r;
        assert f[i] == r[i];
      }
    }
    forall r | r in t && t[r].FileEntry? ensures t[r].kind == Raw || t[r].kind == File {
      BuiltRow(c, k, files, r);
    }
  }

  /** In a built table a row is visible exactly when no file is in the way. */
  lemma BuiltVisible(c: Codec, k: nat, files: Files, route: Route)
    requires k >= 2
    ensures Visible(BuiltTable(c, k, files), route) <==>
            (route in files || Above(files.Keys, route)) && Unshadowed(files, route)
  {
    hide BuiltTable;
    var t := BuiltTable(c, k, files);
    BuiltRow(c, k, files, route);
    forall i | 0 <= i < |route| && (route in files || Above(files.Keys, route))
      ensures route[..i] in t && (t[route[..i]].DirEntry? <==> route[..i] !in files)
    {
      BuiltRow(c, k, files, route[..i]);
      if route in files {
        assert Above(files.Keys, route[..i]);
      } else {
        var f :| f in files.Keys && |route| < |f| && f[..|route|] == route;
        assert f[..i] == route[..i];
      }
    }
  }

  /** Enough budget for every route of length at most `n`: `h` bounds the directories' heights. */
  ghost predicate EnoughBudget(c: Codec, k: nat, files: Files, route: Route, h: nat, depth: nat, output: nat)
    requires k >= 2
  {
    && Heights(Canonical(c, k, BuiltTable(c, k, files)), h)
    && depth >= |route| * (h + 1)
    && (route in files ==> depth > Height(FileShape(c, k, files[route])) && |files[route]| <= output)
  }

  /** Every fan-out on the way routes the route's segments to their own children. */
  ghost predicate Findable(c: Codec, k: nat, files: Files, route: Route)
    requires k >= 2
  {
    Shown(Canonical(c, k, BuiltTable(c, k, files)), [], route)
  }

  /** Reading back: with a root that fits one manifest, every written route whose way no other
      file blocks and every fan-out shows yields its size and exactly its bytes; an empty file is
      refused, as is a directory; every other path is absent. */
  lemma RoundTrip(c: Codec, k: nat, store: Store, files: Files, route: Route, h: nat, depth: nat, output: nat)
    requires Faithful(c) && k >= 2 && Acceptable(files) && Stored(c, k, store, files)
    requires Sizable(c, k, BuiltTable(c, k, files))
    requires forall r :: r in files ==> |files[r]| <= MAX_SAFE
    requires EnoughBudget(c, k, files, route, h, depth, output)
    requires |ChildNames(BuiltTable(c, k, files), [])| <= k
    ensures Get(c, k, store, RootHash(c, k, BuiltTable(c, k, files)), route, depth, output)
         == if route == [] || !Unshadowed(files, route) || !Findable(c, k, files, route) then NoReply(Absent)
            else if route in files then
              if files[route] == [] then NoReply(OverBudget) else Delivered(|files[route]|, FileKind(files[route]), files[route])
            else if Above(files.Keys, route) then Unsupported
            else NoReply(Absent)
  {
    hide BuiltTable, Sizable, Heights, Stored, Faithful, Visible, DirShape, Deliver, FileHash, FileKind, FileShape, Canonical, Walk, ChildNames, Shown;
    if route != [] {
      var t := BuiltTable(c, k, files);
      BuiltWalk(c, k, store, files, route, h, depth);
      BuiltVisible(c, k, files, route);
      BuiltRow(c, k, files, route);
      if Visible(t, route) {
        var l := RowLink(c, t, Canonical(c, k, t), route);
        if route in files {
          StoredFile(c, k, store, files, route);
          ReadFile(c, k, store, files[route], l, depth, output);
        } else {
          DeliverDirectory(c, k, store, l, depth, output);
        }
      }
    }
  }

  /** Names without supplementary characters are all shown. */
  lemma BasicFindable(c: Codec, k: nat, store: Store, files: Files, route: Route)
    requires k >= 2 && Acceptable(files) && Stored(c, k, store, files)
    requires Sizable(c, k, BuiltTable(c, k, files)) && BasicRoutes(BuiltTable(c, k, files))
    requires route in files && Unshadowed(files, route)
    ensures Findable(c, k, files, route)
  {
    hide BuiltTable, Sizable, BasicRoutes, Canonical, Realizes, Visible, Stored, Shown;
    var t := BuiltTable(c, k, files);
    BuiltVisible(c, k, files, route);
    LeadsFromRoot(t, route);
    BuiltRealizes(c, k, store, files);
    BasicShown(c, k, store, t, Canonical(c, k, t), [], route);
  }

  lemma StoredFile(c: Codec, k: nat, store: Store, files: Files, route: Route)
    requires k >= 2 && Stored(c, k, store, files) && route in files
    ensures FileStored(c, k, store, files[route])
  {
  }

  lemma DeliverDirectory(c: Codec, k: nat, store: Store, l: Link, depth: nat, output: nat)
    requires l.kind == Directory || l.kind == Fanout
    ensures Deliver(c, k, store, l, depth, output) == Unsupported
  {
  }

  lemma LeadsFromRoot(t: Table, route: Route)
    ensures Leads(t, [], route) <==> Visible(t, route)
  {
    assert [] + route == route;
    assert forall i :: 0 <= i < |route| ==> [] + route[..i] == route[..i];
  }

  /** From a root that is a directory manifest, a route finds its row exactly when it is visible. */
  lemma RootWalk(c: Codec, limit: nat, store: Store, t: Table, shapes: ShapeMap, route: Route, h: nat, depth: nat)
    requires Faithful(c) && Realizes(c, limit, store, t, shapes) && FileKinds(t) && Heights(shapes, h)
    requires [] in t && t[[]].DirEntry? && route != [] && depth >= |route| * (h + 1)
    ensures Visible(t, route) && t[route].DirEntry? ==> route in shapes
    ensures WalkNode(c, limit, store, shapes[[]], route, depth)
         == if Visible(t, route) && Shown(shapes, [], route) then Found(RowLink(c, t, shapes, route)) else Absent
  {
    hide Faithful, Walkable, ListsRows, FileKinds, Heights, WalkNode, RowLink, Shown;
    assert [] + route == route;
    LeadsFromRoot(t, route);
    WalkRoute(c, limit, store, t, shapes, h, [], route, depth);
  }

  lemma BuiltRealizes(c: Codec, k: nat, store: Store, files: Files)
    requires k >= 2 && Acceptable(files) && Stored(c, k, store, files) && Sizable(c, k, BuiltTable(c, k, files))
    ensures Realizes(c, k, store, BuiltTable(c, k, files), Canonical(c, k, BuiltTable(c, k, files)))
  {
    hide BuiltTable, Sizable, TreeStored, SafeRoutes, Realizes;
    BuiltSafe(c, k, files);
    CanonicalRealizes(c, k, store, BuiltTable(c, k, files));
  }

  /** The root of a table is a directory manifest exactly when it has at most `k` entries. */
  lemma RootKind(c: Codec, k: nat, t: Table)
    requires k >= 2 && [] in t && t[[]].DirEntry?
    ensures [] in Canonical(c, k, t) && NodeHash(c, DirTree, Canonical(c, k, t)[[]]) == RootHash(c, k, t)
    ensures NodeKind(DirTree, Canonical(c, k, t)[[]]) == if |ChildNames(t, [])| <= k then Directory else Fanout
  {
    hide DirShape, ChildNames;
    assert [] in t.Keys;
    var h := DirHeight(c, k, t, []);
  }

  lemma BuiltWalk(c: Codec, k: nat, store: Store, files: Files, route: Route, h: nat, depth: nat)
    requires Faithful(c) && k >= 2 && Acceptable(files) && Stored(c, k, store, files)
    requires Sizable(c, k, BuiltTable(c, k, files))
    requires route != [] && Heights(Canonical(c, k, BuiltTable(c, k, files)), h) && depth >= |route| * (h + 1)
    requires |ChildNames(BuiltTable(c, k, files), [])| <= k
    ensures Visible(BuiltTable(c, k, files), route) && BuiltTable(c, k, files)[route].DirEntry? ==>
              route in Canonical(c, k, BuiltTable(c, k, files))
    ensures var t := BuiltTable(c, k, files);
      Walk(c, k, store, RootHash(c, k, t), Directory, route, depth)
      == if Visible(t, route) && Findable(c, k, files, route) then Found(RowLink(c, t, Canonical(c, k, t), route)) else Absent
  {
    hide BuiltTable, Sizable, Heights, Shown, Faithful, Canonical, RowLink, Realizes, Stored, Walk, FileKinds, ChildNames, RootHash;
    var t := BuiltTable(c, k, files);
    BuiltRoot(c, k, files);
    BuiltSafe(c, k, files);
    BuiltRealizes(c, k, store, files);
    RootKind(c, k, t);
    RootWalk(c, k, store, t, Canonical(c, k, t), route, h, depth);
  }

  /** A root with more than `k` entries is itself a fan-out, which neither reading nor importing
      accepts: no path resolves. */
  lemma RootFansOut(c: Codec, k: nat, store: Store, files: Files, route: Route, depth: nat, output: nat)
    requires Faithful(c) && k >= 2 && Acceptable(files) && Stored(c, k, store, files)
    requires Sizable(c, k, BuiltTable(c, k, files))
    requires |ChildNames(BuiltTable(c, k, files), [])| > k && route != [] && depth > 0
    ensures Get(c, k, store, RootHash(c, k, BuiltTable(c, k, files)), route, depth, output) == NoReply(WrongType)
  {
    hide BuiltTable, Sizable, Stored, Canonical, Present, Listable, Compact, ChildNames, RootHash, NodeHash, ListsRows;
    var t := BuiltTable(c, k, files);
    BuiltRoot(c, k, files);
    BuiltRealizes(c, k, store, files);
    RootKind(c, k, t);
    LoadNode(c, DirTree, k, store, Canonical(c, k, t)[[]]);
  }

  /** A written file is read back if and only if the root fits one manifest, no other file is in
      its way, every fan-out shows it, and it is not empty. */
  lemma ReadableIff(c: Codec, k: nat, store: Store, files: Files, route: Route, h: nat, depth: nat, output: nat)
    requires Faithful(c) && k >= 2 && Acceptable(files) && Stored(c, k, store, files)
    requires Sizable(c, k, BuiltTable(c, k, files))
    requires forall r :: r in files ==> |files[r]| <= MAX_SAFE
    requires EnoughBudget(c, k, files, route, h, depth, output) && route in files
    ensures Get(c, k, store, RootHash(c, k, BuiltTable(c, k, files)), route, depth, output)
            == Delivered(|files[route]|, FileKind(files[route]), files[route])
        <==> && |ChildNames(BuiltTable(c, k, files), [])| <= k
             && Unshadowed(files, route) && Findable(c, k, files, route) && files[route] != []
  {
    hide BuiltTable, Sizable, Heights, Stored, Faithful, DirShape, Get, FileKind, FileShape, Canonical, ChildNames, Findable;
    if |ChildNames(BuiltTable(c, k, files), [])| <= k {
      RoundTrip(c, k, store, files, route, h, depth, output);
    } else {
      assert |route| * (h + 1) >= 1;
      RootFansOut(c, k, store, files, route, depth, output);
    }
  }

  /** Whatever the budget, a written empty file is never delivered. */
  lemma EmptyNeverDelivered(c: Codec, k: nat, store: Store, files: Files, route: Route, depth: nat, output: nat)
    requires Faithful(c) && k >= 2 && Acceptable(files) && Stored(c, k, store, files)
    requires Sizable(c, k, BuiltTable(c, k, files)) && route in files && files[route] == []
    ensures !Get(c, k, store, RootHash(c, k, BuiltTable(c, k, files)), route, depth, output).Delivered?
  {
    hide BuiltTable, Sizable, Stored, Faithful, Canonical, Walk, ChildNames, Deliver, FileHash, RootHash, Realizes, NodeHash, Shown, Leads;
    var t := BuiltTable(c, k, files);
    BuiltRow(c, k, files, route);
    ChunksNonEmpty([]);
    if |ChildNames(t, [])| <= k {
      BuiltRoot(c, k, files);
      BuiltSafe(c, k, files);
      BuiltRealizes(c, k, store, files);
      RootKind(c, k, t);
      var shapes := Canonical(c, k, t);
      WalkRouteBounded(c, k, store, t, shapes, [], route, depth);
      assert [] + route == route;
      EmptyRefused(c, k, store, RowLink(c, t, shapes, route), depth, output);
    } else if depth > 0 {
      RootFansOut(c, k, store, files, route, depth, output);
    } else {
      NoDepth(c, k, store, RootHash(c, k, t), route);
    }
  }

  lemma NoDepth(c: Codec, limit: nat, store: Store, root: Hash, route: Route)
    requires route != []
    ensures Walk(c, limit, store, root, Directory, route, 0) == OverBudget
  {
  }

  /** One empty file is accepted, written and lost. */
  lemma EmptyFileLost(c: Codec, k: nat, store: Store, n: Name, depth: nat, output: nat)
    requires Faithful(c) && k >= 2 && SafeName(n) && Stored(c, k, store, map[[n] := []])
    ensures Acceptable(map[[n] := []]) && |ChildNames(BuiltTable(c, k, map[[n] := []]), [])| <= k
    ensures !Get(c, k, store, RootHash(c, k, BuiltTable(c, k, map[[n] := []])), [n], depth, output).Delivered?
  {
    var files: Files := map[[n] := []];
    assert Acceptable(files) by {
      hide SafeName;
      assert [n] in files;
    }
    hide BuiltTable, Stored, Get, RootHash, Sizable, ChildNames, Acceptable;
    OnlyFile(c, k, n);
    EmptyNeverDelivered(c, k, store, files, [n], depth, output);
  }

  lemma OnlyRows(c: Codec, k: nat, n: Name)
    requires k >= 2
    ensures var t := BuiltTable(c, k, map[[n] := []]);
      && t.Keys == {[], [n]} && t[[]] == DirEntry && t[[n]].FileEntry? && t[[n]].size == 0
  {
    var files: Files := map[[n] := []];
    hide BuiltTable, FileHash, FileKind;
    forall r ensures r in BuiltTable(c, k, files) <==> r == [] || r == [n] {
      BuiltRow(c, k, files, r);
      assert [n][..0] == [];
      assert [n] in files.Keys;
    }
    BuiltRow(c, k, files, [n]);
    BuiltRow(c, k, files, []);
  }

  lemma OneEntry(c: Codec, k: nat, t: Table, d: Route, n: Name)
    requires k >= 2 && d in t.Keys && ChildNames(t, d) == {n} && d + [n] in t && t[d + [n]].FileEntry?
    ensures |EntryLinks(c, k, t, d)| == 1 && SumSizes(EntryLinks(c, k, t, d)) == t[d + [n]].size
  {
    hide SortNames, ChildNames, DirShape, MaxLen;
    var names, ls := SortNames(ChildNames(t, d)), EntryLinks(c, k, t, d);
    assert |names| == 1 && names[0] in {n};
    assert ls[1..] == [];
    assert ls[0] == EntryLink(c, k, t, d + [n]);
  }

  lemma OnlyFile(c: Codec, k: nat, n: Name)
    requires k >= 2
    ensures var t := BuiltTable(c, k, map[[n] := []]); ChildNames(t, []) == {n} && Sizable(c, k, t)
  {
    var t := BuiltTable(c, k, map[[n] := []]);
    OnlyRows(c, k, n);
    hide BuiltTable, EntryLinks;
    assert [] + [n] == [n];
    forall m ensures m in ChildNames(t, []) <==> m == n {
      assert ([] + [m])[0] == m;
    }
    OneEntry(c, k, t, [], n);
  }

  // ---- Building on a base ----

  lemma SameVisibleSameRoot(c: Codec, k: nat, a: Table, b: Table)
    requires k >= 2 && [] in a && a[[]].DirEntry? && [] in b && b[[]].DirEntry?
    requires VisibleRows(a) == VisibleRows(b)
    ensures RootHash(c, k, a) == RootHash(c, k, b)
  {
    assert Visible(a, []) && Visible(b, []);
    HiddenRowsIrrelevant(c, k, a, []);
    HiddenRowsIrrelevant(c, k, b, []);
  }

  lemma FileRowsMerge(c: Codec, k: nat, files1: Files, files2: Files)
    requires k >= 2
    ensures FileRows(c, k, files1 + files2) == FileRows(c, k, files1) + FileRows(c, k, files2)
  {
  }

  /** History independence: laying new files over what can be read of a built tree gives the
      same root as building the merged files from scratch, the new files winning. */
  lemma HistoryIndependence(c: Codec, k: nat, files1: Files, files2: Files)
    requires k >= 2 && Acceptable(files1) && SafeFiles(files2)
    ensures RootHash(c, k, Overlay(VisibleRows(BuiltTable(c, k, files1)), FileRows(c, k, files2)))
         == RootHash(c, k, BuiltTable(c, k, files1 + files2))
  {
    hide RootHash, FileHash, FileKind;
    var t1, r2 := BuiltTable(c, k, files1), FileRows(c, k, files2);
    var empty: Table := map[];
    FileRowsMerge(c, k, files1, files2);
    OverlayTwice(empty, FileRows(c, k, files1), r2);
    OverlayClosed(empty, FileRows(c, k, files1));
    OverlayOfVisible(t1, r2);
    BuiltRoot(c, k, files1);
    BuiltRoot(c, k, files1 + files2);
    assert Visible(t1, []);
    assert [] !in r2;
    SameVisibleSameRoot(c, k, Overlay(VisibleRows(t1), r2), Overlay(t1, r2));
  }

  // ---- Where the reader's order is not the writer's ----

  /** Three names collapsed two to a manifest.  The first is listed, and yet a reader walking the
      fan-out calls it absent: by UTF-16 order it lies beyond its own group's last name. */
  lemma SupplementaryNameLost(c: Codec, store: Store, items: seq<Link>, depth: nat)
    requires Faithful(c) && |items| == 3 && depth > 0 && Listable(DirTree, items)
    requires NameOf(items[0]) == "\U{FF5E}" && NameOf(items[1]) == "\U{10000}" && NameOf(items[2]) == "\U{10001}"
    requires Present(c, DirTree, store, Collapse(items, 2))
    ensures Lists(items, "\U{FF5E}")
    ensures WalkNode(c, 2, store, Collapse(items, 2), ["\U{FF5E}"], depth) == Absent
  {
    hide Walk, Faithful, Present, Listable, Uniform, Pow, Compact;
    var s, n := Collapse(items, 2), "\U{FF5E}";
    ThreeByTwo(items);
    FlattenCollapse(items, 2);
    var h := CollapseHeight(items, 2);
    UniformCompact(s, h, 2);
    assert Walkable(c, 2, store, s);
    NoSpan(c, items);
    WalkInner(c, 2, store, s, [n], depth);
    NamedLink(items);
    assert items[0].name == Some(n);
  }

  lemma NamedLink(items: seq<Link>)
    requires Listable(DirTree, items) && items != []
    ensures items[0].name == Some(NameOf(items[0]))
  {
  }

  lemma ThreeByTwo(items: seq<Link>)
    requires |items| == 3
    ensures Collapse(items, 2) == Inner([Leaf(items[..2]), Leaf(items[2..])])
  {
    assert Groups(items[2..], 2) == [items[2..]];
    assert Groups(items, 2) == [items[..2], items[2..]];
    assert Leaves(Groups(items, 2)) == [Leaf(items[..2]), Leaf(items[2..])];
  }

  lemma NoSpan(c: Codec, items: seq<Link>)
    requires |items| == 3
    requires NameOf(items[0]) == "\U{FF5E}" && NameOf(items[1]) == "\U{10000}" && NameOf(items[2]) == "\U{10001}"
    ensures FindSpan(ChildLinks(c, DirTree, [Leaf(items[..2]), Leaf(items[2..])]), "\U{FF5E}") == None
  {
    hide ScriptLe, NodeManifest;
    OrdersDisagree();
    OrdersDisagreeToo();
    var n := "\U{FF5E}";
    var links := ChildLinks(c, DirTree, [Leaf(items[..2]), Leaf(items[2..])]);
    assert links == [links[0], links[1]];
    assert !InSpan(links[0], n) && !InSpan(links[1], n);
    assert FindSpan([links[1]], n).None?;
    assert links[1..] == [links[1]];
  }

  lemma OrdersDisagreeToo()
    ensures !ScriptLe("\U{FF5E}", "\U{10001}")
  {
    var a, b := "\U{FF5E}", "\U{10001}";
    assert a[1..] == "" && b[1..] == "";
    assert Utf16(a) == [0xFF5E] + Utf16("");
    assert Utf16(b) == [0xD800, 0xDC01] + Utf16("");
  }
}
