/** The writer's `nodes` table and the tree of manifests it determines. */
module Tables {
  import opened NameOrder
  import opened Manifests
  import opened Shapes

  /** A normalised route: its segments, in order. */
  type Route = seq<Name>

  /** A row: a file with the link it was built to, or a directory. */
  datatype Entry = FileEntry(hash: Hash, size: nat, kind: LinkType) | DirEntry

  type Table = map<Route, Entry>

  function ChildNames(t: Table, d: Route): (s: set<Name>)
    ensures forall n :: n in s <==> d + [n] in t
  {
    var s := set r | r in t && |r| == |d| + 1 && r[..|d|] == d :: r[|d|];
    assert forall n :: n in s ==> d + [n] in t by {
      forall n | n in s ensures d + [n] in t {
        var r :| r in t && |r| == |d| + 1 && r[..|d|] == d && r[|d|] == n;
        assert r == d + [n];
      }
    }
    assert forall n :: d + [n] in t ==> (d + [n])[..|d|] == d && (d + [n])[|d|] == n;
    s
  }

  ghost function MaxLen(rs: set<Route>): (m: nat)
    ensures forall r :: r in rs ==> |r| <= m
  {
    if rs == {} then 0
    else
      var r :| r in rs;
      var rest := MaxLen(rs - {r});
      if |r| > rest then |r| else rest
  }

  /** The link a directory holds for the row at `r`. */
  ghost function EntryLink(c: Codec, k: nat, t: Table, r: Route): (l: Link)
    requires k >= 2 && r in t && r != []
    ensures l.name == Some(r[|r| - 1]) && l.bounds == None
    decreases MaxLen(t.Keys) - |r|, 1
  {
    var name := Some(r[|r| - 1]);
    match t[r]
    case FileEntry(hash, size, kind) => Link(hash, size, kind, name, None)
    case DirEntry =>
      var s := DirShape(c, k, t, r);
      Link(NodeHash(c, DirTree, s), SumSizes(Flatten(s)), NodeKind(DirTree, s), name, None)
  }

  /** The links of directory `d`, in name order. */
  ghost function EntryLinks(c: Codec, k: nat, t: Table, d: Route): (ls: seq<Link>)
    requires k >= 2 && |d| <= MaxLen(t.Keys)
    ensures |ls| == |SortNames(ChildNames(t, d))|
    ensures forall i :: 0 <= i < |ls| ==> ls[i].name == Some(SortNames(ChildNames(t, d))[i])
    decreases MaxLen(t.Keys) - |d|, 0, 1
  {
    var names := SortNames(ChildNames(t, d));
    seq(|names|, i requires 0 <= i < |names| =>
      ChildRow(t, d, names[i]);
      EntryLink(c, k, t, d + [names[i]]))
  }

  lemma ChildRow(t: Table, d: Route, n: Name)
    requires n in SortNames(ChildNames(t, d))
    ensures d + [n] in t && |d| < |d + [n]| <= MaxLen(t.Keys)
  {
    hide SortNames, MaxLen;
    assert d + [n] in t.Keys;
  }

  /** The manifests of directory `d`: its links in name order, collapsed. */
  ghost function DirShape(c: Codec, k: nat, t: Table, d: Route): Shape
    requires k >= 2 && |d| <= MaxLen(t.Keys)
    decreases MaxLen(t.Keys) - |d|, 0, 2
  {
    Collapse(EntryLinks(c, k, t, d), k)
  }

  // ---- Rows that can be reached ----

  /** Every directory on the way to `r` is a directory row. */
  ghost predicate Visible(t: Table, r: Route) {
    r in t && forall i :: 0 <= i < |r| ==> r[..i] in t && t[r[..i]].DirEntry?
  }

  ghost function VisibleRows(t: Table): Table {
    map r | r in t && Visible(t, r) :: t[r]
  }

  lemma VisibleChild(t: Table, d: Route, n: Name)
    requires Visible(t, d) && t[d].DirEntry?
    ensures Visible(t, d + [n]) <==> d + [n] in t
  {
    var r := d + [n];
    forall i | 0 <= i < |r| ensures r[..i] == if i < |d| then d[..i] else d {
    }
  }

  lemma VisibleChildNames(t: Table, d: Route)
    requires Visible(t, d) && t[d].DirEntry?
    ensures ChildNames(t, d) == ChildNames(VisibleRows(t), d)
  {
    forall n ensures n in ChildNames(t, d) <==> n in ChildNames(VisibleRows(t), d) {
      VisibleChild(t, d, n);
    }
  }

  /** The entries of a directory determine its manifests. */
  lemma SameEntries(c: Codec, k: nat, t: Table, v: Table, d: Route)
    requires k >= 2 && d in t.Keys && d in v.Keys && ChildNames(t, d) == ChildNames(v, d)
    requires forall n :: n in ChildNames(t, d) ==> EntryLink(c, k, t, d + [n]) == EntryLink(c, k, v, d + [n])
    ensures DirShape(c, k, t, d) == DirShape(c, k, v, d)
  {
    hide EntryLink, Collapse, SortNames, ChildNames, MaxLen;
    assert EntryLinks(c, k, t, d) == EntryLinks(c, k, v, d) by {
      forall i | 0 <= i < |EntryLinks(c, k, t, d)| ensures EntryLinks(c, k, t, d)[i] == EntryLinks(c, k, v, d)[i] {
        assert SortNames(ChildNames(t, d))[i] in ChildNames(t, d);
      }
    }
  }

  /** Hidden rows do not influence what is built. */
  lemma {:induction false} HiddenRowsIrrelevant(c: Codec, k: nat, t: Table, d: Route)
    requires k >= 2 && Visible(t, d) && t[d].DirEntry?
    ensures d in VisibleRows(t) && DirShape(c, k, t, d) == DirShape(c, k, VisibleRows(t), d)
    decreases MaxLen(t.Keys) - |d|
  {
    hide DirShape, NodeHash, Flatten;
    var v := VisibleRows(t);
    VisibleChildNames(t, d);
    forall n | n in ChildNames(t, d) ensures EntryLink(c, k, t, d + [n]) == EntryLink(c, k, v, d + [n]) {
      var r := d + [n];
      VisibleChild(t, d, n);
      assert r in t.Keys;
      if t[r].DirEntry? { HiddenRowsIrrelevant(c, k, t, r); }
    }
    SameEntries(c, k, t, v, d);
  }

  // ---- Laying files over a table ----

  /** A proper prefix of a route of the set. */
  ghost predicate Above(rs: set<Route>, d: Route) {
    exists r :: r in rs && |d| < |r| && r[..|d|] == d
  }

  ghost function Ancestors(rs: set<Route>): (ds: set<Route>)
    ensures forall d :: d in ds <==> Above(rs, d)
  {
    var ds := set r, i | r in rs && 0 <= i < |r| :: r[..i];
    assert forall d :: Above(rs, d) ==> d in ds by {
      forall d | Above(rs, d) ensures d in ds {
        var r :| r in rs && |d| < |r| && r[..|d|] == d;
      }
    }
    ds
  }

  /** Inserting files: a file row replaces what was there, the directories above it are added
      where no row exists yet. */
  ghost function Overlay(t: Table, files: Table): Table {
    map r | r in t.Keys + files.Keys + Ancestors(files.Keys) ::
      if r in files then files[r] else if r in t then t[r] else DirEntry
  }

  /** One insertion, as the statements make it. */
  ghost function InsertFile(t: Table, route: Route, e: Entry): Table {
    Overlay(t, map[route := e])
  }

  ghost predicate OnlyFiles(files: Table) {
    forall r :: r in files ==> files[r].FileEntry?
  }

  /** Inserting one file more extends the overlay, whatever the table held. */
  lemma OverlayExtend(t: Table, files: Table, route: Route, e: Entry)
    ensures InsertFile(Overlay(t, files), route, e) == Overlay(t, files[route := e])
  {
    OverlayTwice(t, files, map[route := e]);
    assert files + map[route := e] == files[route := e];
  }

  /** The directory above every row is a row. */
  ghost predicate ParentClosed(t: Table) {
    forall r, i :: r in t && 0 <= i < |r| ==> r[..i] in t
  }

  lemma OverlayClosed(t: Table, files: Table)
    requires ParentClosed(t)
    ensures ParentClosed(Overlay(t, files))
  {
    var a := Overlay(t, files);
    forall r, i | r in a && 0 <= i < |r| ensures r[..i] in a {
      if r in t {
        assert r[..i] in t;
      } else if r in files {
        assert Above(files.Keys, r[..i]);
      } else {
        var f :| f in files.Keys && |r| < |f| && f[..|r|] == r;
        assert f[..i] == r[..i];
        assert Above(files.Keys, r[..i]);
      }
    }
  }

  lemma OverlaySameRow(t: Table, files: Table, r: Route, i: nat)
    requires ParentClosed(t) && OnlyFiles(files) && i <= |r|
    requires Visible(Overlay(t, files), r) || Visible(Overlay(VisibleRows(t), files), r)
    ensures r[..i] in Overlay(VisibleRows(t), files) && r[..i] in Overlay(t, files)
    ensures Overlay(VisibleRows(t), files)[r[..i]] == Overlay(t, files)[r[..i]]
    decreases i
  {
    var a, b, p := Overlay(t, files), Overlay(VisibleRows(t), files), r[..i];
    if i == |r| { assert p == r; }
    if p !in files && p in t && !Visible(t, p) {
      // a row hidden by a file stays hidden
      var j :| 0 <= j < |p| && !(p[..j] in t && t[p[..j]].DirEntry?);
      assert p[..j] == r[..j];
      OverlaySameRow(t, files, r, j);
    }
  }

  /** Rows that were hidden before an overlay are hidden after it. */
  lemma OverlayOfVisible(t: Table, files: Table)
    requires ParentClosed(t) && OnlyFiles(files)
    ensures VisibleRows(Overlay(VisibleRows(t), files)) == VisibleRows(Overlay(t, files))
  {
    var a, b := Overlay(t, files), Overlay(VisibleRows(t), files);
    forall r | Visible(a, r) || Visible(b, r)
      ensures Visible(a, r) && Visible(b, r) && a[r] == b[r]
    {
      forall i | 0 <= i <= |r| ensures r[..i] in a && r[..i] in b && a[r[..i]] == b[r[..i]] {
        OverlaySameRow(t, files, r, i);
      }
      assert r[..|r|] == r;
    }
    assert VisibleRows(a).Keys == VisibleRows(b).Keys;
  }

  /** Overlaying twice is overlaying once with the merged files, the later ones winning. */
  lemma OverlayTwice(t: Table, files1: Table, files2: Table)
    ensures Overlay(Overlay(t, files1), files2) == Overlay(t, files1 + files2)
  {
    var a, b := Overlay(Overlay(t, files1), files2), Overlay(t, files1 + files2);
    forall d ensures d in a <==> d in b {
      OverlayKeys(t, files1, files2, d);
    }
    assert a.Keys == b.Keys;
    forall d | d in a ensures a[d] == b[d] {
      if d !in files2 && d !in files1 && d !in t {
        assert d !in Overlay(t, files1) || Overlay(t, files1)[d] == DirEntry;
      }
    }
  }

  lemma OverlayKeys(t: Table, files1: Table, files2: Table, d: Route)
    ensures d in Overlay(Overlay(t, files1), files2) <==> d in Overlay(t, files1 + files2)
  {
    assert (files1 + files2).Keys == files1.Keys + files2.Keys;
    AboveUnion(files1.Keys, files2.Keys, d);
  }

  lemma AboveUnion(x: set<Route>, y: set<Route>, d: Route)
    ensures Above(x + y, d) <==> Above(x, d) || Above(y, d)
  {
    if Above(x + y, d) {
      var r :| r in x + y && |d| < |r| && r[..|d|] == d;
      assert r in x || r in y;
    }
    if Above(x, d) {
      var r :| r in x && |d| < |r| && r[..|d|] == d;
      assert r in x + y;
    }
    if Above(y, d) {
      var r :| r in y && |d| < |r| && r[..|d|] == d;
      assert r in x + y;
    }
  }
}
