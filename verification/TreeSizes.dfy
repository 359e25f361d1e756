/** What the sizes in directory links add up to. */
module TreeSizes {
  import opened NameOrder
  import opened Manifests
  import opened Shapes
  import opened Grouping
  import opened Tables
  import opened Reader
  import opened FileTrees
  import opened Trees
  import opened RoundTrip
  import opened Imports
  import opened Sums

  /** The sizes of the files among these rows. */
  ghost function FileSizes(rows: Table): map<Route, nat> {
    map r | r in rows && rows[r].FileEntry? :: rows[r].size
  }

  ghost function BytesOf(rows: Table): nat {
    SumOf(FileSizes(rows))
  }

  lemma BytesUnion(a: Table, b: Table)
    requires a.Keys !! b.Keys
    ensures BytesOf(a + b) == BytesOf(a) + BytesOf(b)
  {
    SumUnion(FileSizes(a), FileSizes(b));
    assert FileSizes(a + b) == FileSizes(a) + FileSizes(b);
  }

  lemma BytesOne(r: Route, e: Entry)
    ensures BytesOf(map[r := e]) == if e.FileEntry? then e.size else 0
  {
    var sizes := FileSizes(map[r := e]);
    if e.FileEntry? {
      SumRemove(sizes, r);
      SumEmpty(sizes - {r});
    } else {
      SumEmpty(sizes);
    }
  }

  lemma BytesNone()
    ensures BytesOf(map[]) == 0
  {
    SumEmpty(FileSizes(map[]));
  }

  lemma UnderApart(t: Table, d: Route, a: set<Name>, b: set<Name>)
    requires a !! b
    ensures RowsUnder(t, d, a).Keys !! RowsUnder(t, d, b).Keys
  {
    hide Visible;
  }

  /** One entry's link declares the bytes of all files at or below it. */
  lemma {:induction false} EntryBytes(c: Codec, k: nat, t: Table, d: Route, n: Name)
    requires k >= 2 && Visible(t, d) && t[d].DirEntry? && d + [n] in t.Keys
    ensures EntryLink(c, k, t, d + [n]).size == BytesOf(RowsUnder(t, d, {n}))
    decreases MaxLen(t.Keys) - |d|, 0
  {
    hide RowsUnder, Visible, BytesOf, DirShape, EntryLinks, ChildNames, Flatten, NodeHash;
    var p := d + [n];
    UnderOne(t, d, n);
    BytesOne(p, t[p]);
    if t[p].DirEntry? {
      VisibleChild(t, d, n);
      DirBytes(c, k, t, p);
      FlattenDir(c, k, t, p);
      BelowOnly(t, p);
      BytesUnion(map[p := t[p]], RowsUnder(t, p, ChildNames(t, p)));
    } else {
      assert (map[p := t[p]]) + map[] == map[p := t[p]];
    }
  }

  /** A directory's links declare the bytes of all files that can be reached below it: no file is
      counted twice, and none is left out. */
  lemma {:induction false} DirBytes(c: Codec, k: nat, t: Table, d: Route)
    requires k >= 2 && Visible(t, d) && t[d].DirEntry?
    ensures SumSizes(EntryLinks(c, k, t, d)) == BytesOf(RowsUnder(t, d, ChildNames(t, d)))
    decreases MaxLen(t.Keys) - |d|, 1
  {
    var names := SortNames(ChildNames(t, d));
    var links := EntryLinks(c, k, t, d);
    assert |links| == |names|;
    forall i | 0 <= i < |names| ensures links[i].size == BytesOf(RowsUnder(t, d, {names[i]})) {
      LinkAt(c, k, t, d, i);
      EntryBytes(c, k, t, d, names[i]);
    }
    AllNames(ChildNames(t, d));
    hide EntryLinks, RowsUnder, ChildNames, BytesOf, Visible, SortNames, MaxLen;
    LinksBytes(links, names, t, d);
  }

  lemma AllNames(names: set<Name>)
    ensures NamesIn(SortNames(names)) == names && Increasing(SortNames(names))
  {
  }

  ghost function NamesIn(names: seq<Name>): set<Name> {
    set n | n in names
  }

  lemma {:induction false} LinksBytes(links: seq<Link>, names: seq<Name>, t: Table, d: Route)
    requires |links| == |names| && Increasing(names)
    requires forall i :: 0 <= i < |names| ==> links[i].size == BytesOf(RowsUnder(t, d, {names[i]}))
    ensures SumSizes(links) == BytesOf(RowsUnder(t, d, NamesIn(names)))
    decreases |names|
  {
    hide RowsUnder, BytesOf;
    if names == [] {
      BytesNone();
      UnderNone(t, d);
      assert NamesIn(names) == {};
    } else {
      var i := |names| - 1;
      NameApart(names, i);
      assert names[..i + 1] == names && links[..i + 1] == links;
      LinksBytes(links[..i], names[..i], t, d);
      UnderSnoc(t, d, NamesIn(names[..i]), names[i]);
      SumSnoc(links, i);
    }
  }

  lemma SumSnoc(links: seq<Link>, i: nat)
    requires i < |links|
    ensures SumSizes(links[..i + 1]) == SumSizes(links[..i]) + links[i].size
  {
    assert links[..i + 1] == links[..i] + [links[i]];
    SumSizesAppend(links[..i], [links[i]]);
    assert [links[i]][1..] == [];
  }

  lemma UnderSnoc(t: Table, d: Route, a: set<Name>, n: Name)
    requires n !in a
    ensures BytesOf(RowsUnder(t, d, a + {n})) == BytesOf(RowsUnder(t, d, a)) + BytesOf(RowsUnder(t, d, {n}))
  {
    hide RowsUnder, BytesOf;
    UnderUnion(t, d, a, {n});
    UnderApart(t, d, a, {n});
    BytesUnion(RowsUnder(t, d, a), RowsUnder(t, d, {n}));
  }

  lemma LinkAt(c: Codec, k: nat, t: Table, d: Route, i: nat)
    requires k >= 2 && d in t.Keys && i < |SortNames(ChildNames(t, d))|
    ensures d + [SortNames(ChildNames(t, d))[i]] in t.Keys
    ensures i < |EntryLinks(c, k, t, d)| && EntryLinks(c, k, t, d)[i] == EntryLink(c, k, t, d + [SortNames(ChildNames(t, d))[i]])
  {
    hide EntryLink, Increasing;
    ChildRow(t, d, SortNames(ChildNames(t, d))[i]);
  }

  lemma NameApart(names: seq<Name>, i: nat)
    requires Increasing(names) && i < |names|
    ensures Increasing(names[..i]) && names[i] !in NamesIn(names[..i]) && NamesIn(names[..i + 1]) == NamesIn(names[..i]) + {names[i]}
  {
    hide ByteLe;
    assert names[..i + 1] == names[..i] + [names[i]];
  }

  /** The root of a build declares the bytes of all its files but those below another file. */
  lemma RootBytes(c: Codec, k: nat, files: Files)
    requires k >= 2 && Acceptable(files)
    ensures var t := BuiltTable(c, k, files);
      SumSizes(EntryLinks(c, k, t, [])) == SumOf(map r | r in files && Unshadowed(files, r) :: |files[r]|)
  {
    hide BuiltTable, EntryLinks, Unshadowed, Acceptable, BytesOf;
    BuiltRoot(c, k, files);
    TreeBytes(c, k, BuiltTable(c, k, files));
    VisibleFiles(c, k, files);
    BytesAre(VisibleRows(BuiltTable(c, k, files)));
  }

  lemma BytesAre(rows: Table)
    ensures BytesOf(rows) == SumOf(FileSizes(rows))
  {
  }

  lemma TreeBytes(c: Codec, k: nat, t: Table)
    requires k >= 2 && [] in t && t[[]] == DirEntry
    ensures SumSizes(EntryLinks(c, k, t, [])) == BytesOf(VisibleRows(t))
  {
    RootVisible(t);
    DirBytes(c, k, t, []);
    UnderRoot(t);
    BelowOnly(t, []);
    hide EntryLinks, RowsUnder, VisibleRows, ChildNames, BytesOf;
    BytesOne([], DirEntry);
    BytesUnion(map[[] := DirEntry], RowsUnder(t, [], ChildNames(t, [])));
  }

  lemma RootVisible(t: Table)
    requires [] in t
    ensures Visible(t, [])
  {
  }

  lemma VisibleFiles(c: Codec, k: nat, files: Files)
    requires k >= 2
    ensures FileSizes(VisibleRows(BuiltTable(c, k, files))) == map r | r in files && Unshadowed(files, r) :: |files[r]|
  {
    var sizes := FileSizes(VisibleRows(BuiltTable(c, k, files)));
    forall r ensures r in sizes <==> r in files && Unshadowed(files, r)
    ensures r in sizes ==> sizes[r] == |files[r]| {
      BuiltRow(c, k, files, r);
      if r in files { UnshadowedIsVisible(c, k, files, r); }
      hide BuiltTable, Visible, Unshadowed;
    }
  }

  lemma UnshadowedIsVisible(c: Codec, k: nat, files: Files, r: Route)
    requires k >= 2 && r in files
    ensures Visible(BuiltTable(c, k, files), r) <==> Unshadowed(files, r)
  {
    var t := BuiltTable(c, k, files);
    BuiltRow(c, k, files, r);
    forall i | 0 <= i < |r| ensures r[..i] in t && (t[r[..i]].DirEntry? <==> r[..i] !in files) {
      BuiltRow(c, k, files, r[..i]);
      assert r in files.Keys && r[..|r[..i]|] == r[..i];
    }
    hide BuiltTable;
  }
}
