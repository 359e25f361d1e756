/** Whole trees: a table of routes written as manifests, and reading it back. */
module Trees {
  import opened NameOrder
  import opened Manifests
  import opened Shapes
  import opened Grouping
  import opened Tables
  import opened Reader
  import opened FileTrees

  /** One node per directory row. */
  type ShapeMap = map<Route, Shape>

  /** The link a directory must hold for row `r`. */
  ghost function RowLink(c: Codec, t: Table, shapes: ShapeMap, r: Route): Link
    requires r in t && r != [] && (t[r].DirEntry? ==> r in shapes)
  {
    var name := Some(r[|r| - 1]);
    match t[r]
    case FileEntry(hash, size, kind) => Link(hash, size, kind, name, None)
    case DirEntry =>
      var s := shapes[r];
      Link(NodeHash(c, DirTree, s), SumSizes(Flatten(s)), NodeKind(DirTree, s), name, None)
  }

  /** The node of directory `d` lists exactly the rows directly under `d`. */
  ghost predicate ListsRows(c: Codec, t: Table, shapes: ShapeMap, d: Route)
    requires d in shapes
  {
    var items := Flatten(shapes[d]);
    && (forall n :: Lists(items, n) <==> d + [n] in t)
    && forall x :: 0 <= x < |items| ==>
         var r := d + [NameOf(items[x])];
         && items[x].name.Some? && r in t
         && (t[r].DirEntry? ==> r in shapes)
         && items[x] == RowLink(c, t, shapes, r)
  }

  /** A store holds a tree for the table: any nodes will do, as long as each directory's node
      lists the rows under it and passes the decoder. */
  ghost predicate Realizes(c: Codec, limit: nat, store: Store, t: Table, shapes: ShapeMap) {
    forall d :: d in t && t[d].DirEntry? ==>
      d in shapes && Walkable(c, limit, store, shapes[d]) && ListsRows(c, t, shapes, d)
  }

  ghost predicate BasicRoutes(t: Table) {
    forall r, i :: r in t && 0 <= i < |r| ==> Basic(r[i])
  }

  /** `segs` leads from directory `d` through directories to a row. */
  ghost predicate Leads(t: Table, d: Route, segs: seq<Name>) {
    d + segs in t && forall i :: 0 <= i < |segs| ==> d + segs[..i] in t && t[d + segs[..i]].DirEntry?
  }

  lemma LeadsStep(t: Table, d: Route, segs: seq<Name>)
    requires d in t && t[d].DirEntry? && |segs| > 1
    ensures Leads(t, d, segs) <==>
            d + [segs[0]] in t && t[d + [segs[0]]].DirEntry? && Leads(t, d + [segs[0]], segs[1..])
  {
    var e, rest := d + [segs[0]], segs[1..];
    assert d + segs == e + rest;
    forall i | 0 <= i < |rest| ensures e + rest[..i] == d + segs[..i + 1] {
      assert segs[..i + 1] == [segs[0]] + rest[..i];
    }
    if Leads(t, d, segs) {
      assert segs[..1] == [segs[0]];
    } else if e in t && t[e].DirEntry? && Leads(t, e, rest) {
      forall i | 0 <= i < |segs| ensures d + segs[..i] in t && t[d + segs[..i]].DirEntry? {
        if i == 0 {
          assert d + segs[..0] == d;
        } else {
          assert e + rest[..i - 1] == d + segs[..i];
        }
      }
    }
  }

  lemma LeadsOne(t: Table, d: Route, n: Name)
    requires d in t && t[d].DirEntry?
    ensures Leads(t, d, [n]) <==> d + [n] in t
  {
    assert d + [n][..0] == d;
  }

  /** On the way of `segs` from directory `d` every fan-out routes each segment to its own child. */
  ghost predicate Shown(shapes: ShapeMap, d: Route, segs: seq<Name>) {
    forall i :: 0 <= i < |segs| && d + segs[..i] in shapes ==> Routed(shapes[d + segs[..i]], segs[i])
  }

  lemma ShownStep(shapes: ShapeMap, d: Route, segs: seq<Name>)
    requires d in shapes && segs != []
    ensures Shown(shapes, d, segs) <==> Routed(shapes[d], segs[0]) && Shown(shapes, d + [segs[0]], segs[1..])
  {
    hide Routed;
    var e, rest := d + [segs[0]], segs[1..];
    assert d + segs[..0] == d;
    forall i | 0 <= i < |rest| ensures e + rest[..i] == d + segs[..i + 1] && rest[i] == segs[i + 1] {
      assert segs[..i + 1] == [segs[0]] + rest[..i];
    }
    if Routed(shapes[d], segs[0]) && Shown(shapes, e, rest) {
      forall i | 0 <= i < |segs| && d + segs[..i] in shapes ensures Routed(shapes[d + segs[..i]], segs[i]) {
        if i > 0 {
          assert e + rest[..i - 1] == d + segs[..i];
        }
      }
    }
    if Shown(shapes, d, segs) {
      forall i | 0 <= i < |rest| && e + rest[..i] in shapes ensures Routed(shapes[e + rest[..i]], rest[i]) {
        assert d + segs[..i + 1] in shapes;
      }
    }
  }

  /** What the walk of `segs` from directory `d` must yield. */
  ghost function Expected(c: Codec, t: Table, shapes: ShapeMap, d: Route, segs: seq<Name>): Outcome
    requires segs != [] && (Leads(t, d, segs) ==> (t[d + segs].DirEntry? ==> d + segs in shapes))
  {
    if Leads(t, d, segs) && Shown(shapes, d, segs) then Found(RowLink(c, t, shapes, d + segs)) else Absent
  }

  lemma EntryOfName(c: Codec, limit: nat, store: Store, t: Table, shapes: ShapeMap, d: Route, n: Name)
    requires Realizes(c, limit, store, t, shapes) && d in t && t[d].DirEntry?
    ensures d + [n] in t && t[d + [n]].DirEntry? ==> d + [n] in shapes
    ensures FindName(Flatten(shapes[d]), n) == if d + [n] in t then Some(RowLink(c, t, shapes, d + [n])) else None
  {
    hide Walkable, Flatten, RowLink;
    var items := Flatten(shapes[d]);
    FindNameNone(items, n);
    if d + [n] in t {
      var x :| 0 <= x < |items| && items[x].name == Some(n) && FindName(items, n).value == items[x];
      assert NameOf(items[x]) == n;
    }
  }

  /** Where no row has a supplementary character every row is shown. */
  lemma BasicShown(c: Codec, limit: nat, store: Store, t: Table, shapes: ShapeMap, d: Route, segs: seq<Name>)
    requires Realizes(c, limit, store, t, shapes) && BasicRoutes(t) && Leads(t, d, segs)
    ensures Shown(shapes, d, segs)
  {
    hide Routed, Basic, Flatten, RowLink, Present, Compact;
    forall i | 0 <= i < |segs| && d + segs[..i] in shapes ensures Routed(shapes[d + segs[..i]], segs[i]) {
      var e := d + segs[..i];
      assert e in t && t[e].DirEntry?;
      DirBasic(c, limit, store, t, shapes, e);
      RowBelow(t, d, segs, i);
      var items := Flatten(shapes[e]);
      assert Lists(items, segs[i]);
      var x :| 0 <= x < |items| && items[x].name == Some(segs[i]);
      BasicRouted(shapes[e], x);
    }
  }

  lemma RowBelow(t: Table, d: Route, segs: seq<Name>, i: nat)
    requires Leads(t, d, segs) && i < |segs|
    ensures d + segs[..i] + [segs[i]] in t
  {
    assert segs[..i + 1] == segs[..i] + [segs[i]];
    assert d + segs[..i] + [segs[i]] == d + segs[..i + 1];
    if i + 1 == |segs| {
      assert segs[..i + 1] == segs;
    }
  }

  lemma DirBasic(c: Codec, limit: nat, store: Store, t: Table, shapes: ShapeMap, d: Route)
    requires Realizes(c, limit, store, t, shapes) && d in t && t[d].DirEntry? && BasicRoutes(t)
    ensures AllBasic(Flatten(shapes[d]))
  {
    hide Walkable, Flatten, RowLink, Basic;
    var items := Flatten(shapes[d]);
    forall x | 0 <= x < |items| ensures Basic(NameOf(items[x])) {
      var r := d + [NameOf(items[x])];
      assert r in t && r[|d|] == NameOf(items[x]);
    }
  }

  ghost predicate FileKinds(t: Table) {
    forall r :: r in t && t[r].FileEntry? ==> t[r].kind == Raw || t[r].kind == File
  }

  /** What entering the entry of the first segment yields. */
  lemma EnterEntry(c: Codec, limit: nat, store: Store, t: Table, shapes: ShapeMap, d: Route, segs: seq<Name>, depth: nat)
    requires Realizes(c, limit, store, t, shapes) && FileKinds(t) && segs != []
    requires d in t && t[d].DirEntry?
    ensures var r := d + [segs[0]];
      var e := Enter(c, limit, store, Seen(shapes[d], segs[0]), segs, depth);
      if !Routed(shapes[d], segs[0]) then e == Absent
      else if r !in t then e == Absent && !Leads(t, d, segs)
      else if |segs| == 1 then
        && Leads(t, d, segs) && d + segs == r && (t[r].DirEntry? ==> r in shapes)
        && e == Found(RowLink(c, t, shapes, r))
      else if t[r].FileEntry? then e == Absent && !Leads(t, d, segs)
      else r in shapes && e == WalkNode(c, limit, store, shapes[r], segs[1..], depth)
  {
    hide Walk, Realizes, Leads, FindName, Flatten, NodeHash, Routed;
    EntryOfName(c, limit, store, t, shapes, d, segs[0]);
    if |segs| == 1 {
      assert segs == [segs[0]];
      LeadsOne(t, d, segs[0]);
    } else {
      LeadsStep(t, d, segs);
    }
  }

  lemma DirWalkable(c: Codec, limit: nat, store: Store, t: Table, shapes: ShapeMap, d: Route)
    requires Realizes(c, limit, store, t, shapes) && d in t && t[d].DirEntry?
    ensures d in shapes && Walkable(c, limit, store, shapes[d])
  {
    hide Walkable, ListsRows;
  }

  lemma LeadsShaped(c: Codec, limit: nat, store: Store, t: Table, shapes: ShapeMap, d: Route, segs: seq<Name>)
    requires Realizes(c, limit, store, t, shapes)
    ensures Leads(t, d, segs) && t[d + segs].DirEntry? ==> d + segs in shapes
  {
    hide Walkable, ListsRows;
  }

  lemma NothingFurther(shapes: ShapeMap, d: Route, segs: seq<Name>)
    requires |segs| == 1
    ensures Shown(shapes, d + [segs[0]], segs[1..])
  {
  }

  ghost predicate Heights(shapes: ShapeMap, h: nat) {
    forall d :: d in shapes ==> Height(shapes[d]) <= h
  }

  /** Entering the entry that is seen for the first segment leads to what is expected, or on to the
      directory below. */
  lemma EnterExpected(c: Codec, limit: nat, store: Store, t: Table, shapes: ShapeMap, d: Route, segs: seq<Name>, depth: nat)
    requires Realizes(c, limit, store, t, shapes) && FileKinds(t) && segs != [] && d in t && t[d].DirEntry?
    ensures d in shapes && Walkable(c, limit, store, shapes[d])
    ensures Leads(t, d, segs) && t[d + segs].DirEntry? ==> d + segs in shapes
    ensures var r := d + [segs[0]];
      var e := Enter(c, limit, store, Seen(shapes[d], segs[0]), segs, depth);
      if |segs| > 1 && Routed(shapes[d], segs[0]) && r in t && t[r].DirEntry? then
        && r in shapes && e == WalkNode(c, limit, store, shapes[r], segs[1..], depth)
        && (Leads(t, r, segs[1..]) && t[r + segs[1..]].DirEntry? ==> r + segs[1..] in shapes)
        && Expected(c, t, shapes, d, segs) == Expected(c, t, shapes, r, segs[1..])
      else e == Expected(c, t, shapes, d, segs)
  {
    hide Realizes, Walkable, WalkNode, Enter, Leads, RowLink, FileKinds, Seen, Routed, Expected;
    DirWalkable(c, limit, store, t, shapes, d);
    LeadsShaped(c, limit, store, t, shapes, d, segs);
    EnterEntry(c, limit, store, t, shapes, d, segs, depth);
    if |segs| == 1 {
      ExpectedLast(c, t, shapes, d, segs);
    } else {
      LeadsShaped(c, limit, store, t, shapes, d + [segs[0]], segs[1..]);
      ExpectedMore(c, t, shapes, d, segs);
    }
  }

  lemma ExpectedLast(c: Codec, t: Table, shapes: ShapeMap, d: Route, segs: seq<Name>)
    requires |segs| == 1 && d in t && t[d].DirEntry? && d in shapes
    requires Leads(t, d, segs) && t[d + segs].DirEntry? ==> d + segs in shapes
    ensures Expected(c, t, shapes, d, segs)
         == if Leads(t, d, segs) && Routed(shapes[d], segs[0]) then Found(RowLink(c, t, shapes, d + segs)) else Absent
  {
    hide Leads, RowLink, Routed, Shown;
    ShownStep(shapes, d, segs);
    NothingFurther(shapes, d, segs);
  }

  lemma ExpectedMore(c: Codec, t: Table, shapes: ShapeMap, d: Route, segs: seq<Name>)
    requires |segs| > 1 && d in t && t[d].DirEntry? && d in shapes
    requires Leads(t, d, segs) && t[d + segs].DirEntry? ==> d + segs in shapes
    requires var r := d + [segs[0]]; Leads(t, r, segs[1..]) && t[r + segs[1..]].DirEntry? ==> r + segs[1..] in shapes
    ensures !Leads(t, d, segs) || !Routed(shapes[d], segs[0]) ==> Expected(c, t, shapes, d, segs) == Absent
    ensures var r := d + [segs[0]]; Routed(shapes[d], segs[0]) && r in t && t[r].DirEntry? ==>
              Expected(c, t, shapes, d, segs) == Expected(c, t, shapes, r, segs[1..])
  {
    hide Leads, RowLink, Routed, Shown;
    ShownStep(shapes, d, segs);
    LeadsStep(t, d, segs);
    assert d + [segs[0]] + segs[1..] == d + segs;
  }

  /** Enough depth: the walk of a route finds its row exactly when directories lead to it and every
      fan-out shows it. */
  lemma {:induction false} WalkRoute(c: Codec, limit: nat, store: Store, t: Table, shapes: ShapeMap, h: nat, d: Route, segs: seq<Name>, depth: nat)
    requires Faithful(c) && Realizes(c, limit, store, t, shapes) && FileKinds(t) && Heights(shapes, h)
    requires d in t && t[d].DirEntry? && segs != [] && depth >= |segs| * (h + 1)
    ensures d in shapes && (Leads(t, d, segs) && t[d + segs].DirEntry? ==> d + segs in shapes)
    ensures WalkNode(c, limit, store, shapes[d], segs, depth) == Expected(c, t, shapes, d, segs)
    decreases |segs|
  {
    hide Realizes, Walkable, WalkNode, Enter, Leads, Expected, FileKinds, Faithful, Seen, Routed;
    EnterExpected(c, limit, store, t, shapes, d, segs, depth);
    assert |segs| * (h + 1) == (|segs| - 1) * (h + 1) + (h + 1);
    var rest := FanWalk(c, limit, store, shapes[d], segs, depth);
    EnterExpected(c, limit, store, t, shapes, d, segs, rest);
    var r := d + [segs[0]];
    if |segs| > 1 && Routed(shapes[d], segs[0]) && r in t && t[r].DirEntry? {
      WalkRoute(c, limit, store, t, shapes, h, r, segs[1..], rest);
    }
  }

  /** Any depth: the walk answers correctly or reports that its budget ran out. */
  lemma {:induction false} WalkRouteBounded(c: Codec, limit: nat, store: Store, t: Table, shapes: ShapeMap, d: Route, segs: seq<Name>, depth: nat)
    requires Faithful(c) && Realizes(c, limit, store, t, shapes) && FileKinds(t)
    requires d in t && t[d].DirEntry? && segs != []
    ensures d in shapes && (Leads(t, d, segs) && t[d + segs].DirEntry? ==> d + segs in shapes)
    ensures var w := WalkNode(c, limit, store, shapes[d], segs, depth);
            w == OverBudget || w == Expected(c, t, shapes, d, segs)
    decreases |segs|
  {
    hide Realizes, Walkable, WalkNode, Enter, Leads, Expected, FileKinds, Faithful, Seen, Routed;
    EnterExpected(c, limit, store, t, shapes, d, segs, depth);
    var rest := FanWalkBounded(c, limit, store, shapes[d], segs, depth);
    EnterExpected(c, limit, store, t, shapes, d, segs, rest);
    var r := d + [segs[0]];
    if |segs| > 1 && Routed(shapes[d], segs[0]) && r in t && t[r].DirEntry? {
      WalkRouteBounded(c, limit, store, t, shapes, r, segs[1..], rest);
    }
  }

  // ---- The tree the writer makes ----

  ghost function Canonical(c: Codec, k: nat, t: Table): ShapeMap
    requires k >= 2
  {
    map d | d in t && t[d].DirEntry? :: DirShape(c, k, t, d)
  }

  ghost predicate SafeRoutes(t: Table) {
    forall r, i :: r in t && 0 <= i < |r| ==> SafeName(r[i])
  }

  /** Every directory's entry count and represented bytes are safe integers; the writer refuses
      to collapse anything else. */
  ghost predicate Sizable(c: Codec, k: nat, t: Table)
    requires k >= 2
  {
    forall d :: d in t.Keys && t[d].DirEntry? ==>
      |EntryLinks(c, k, t, d)| <= MAX_SAFE && SumSizes(EntryLinks(c, k, t, d)) <= MAX_SAFE
  }

  /** All manifests of the table are stored. */
  ghost predicate TreeStored(c: Codec, k: nat, store: Store, t: Table)
    requires k >= 2
  {
    forall d :: d in t.Keys && t[d].DirEntry? ==> Present(c, DirTree, store, DirShape(c, k, t, d))
  }

  lemma EntryLinksListable(c: Codec, k: nat, t: Table, d: Route)
    requires k >= 2 && d in t.Keys && SafeRoutes(t)
    requires |EntryLinks(c, k, t, d)| <= MAX_SAFE && SumSizes(EntryLinks(c, k, t, d)) <= MAX_SAFE
    ensures Listable(DirTree, EntryLinks(c, k, t, d))
  {
    hide SafeName, EntryLink, ByteLess;
    var ls, names := EntryLinks(c, k, t, d), SortNames(ChildNames(t, d));
    forall i | 0 <= i < |ls| ensures DirectoryLinkOk(ls[i]) {
      SumSizesBound(ls, i);
      var r := d + [names[i]];
      assert names[i] in ChildNames(t, d);
      assert r in t && r[|d|] == names[i];
    }
    assert Names(ls) == names;
  }

  lemma EntryLinksNames(c: Codec, k: nat, t: Table, d: Route, n: Name)
    requires k >= 2 && d in t.Keys
    ensures Lists(EntryLinks(c, k, t, d), n) <==> d + [n] in t
  {
    hide EntryLinks, ByteLess;
    var items, names := EntryLinks(c, k, t, d), SortNames(ChildNames(t, d));
    if d + [n] in t {
      assert n in names;
      var x :| 0 <= x < |names| && names[x] == n;
      assert items[x].name == Some(n);
    }
    if Lists(items, n) {
      var x :| 0 <= x < |items| && items[x].name == Some(n);
      assert names[x] in ChildNames(t, d);
    }
  }

  lemma EntryIsRow(c: Codec, k: nat, t: Table, d: Route, x: nat)
    requires k >= 2 && d in t.Keys && x < |EntryLinks(c, k, t, d)|
    ensures var r := d + [SortNames(ChildNames(t, d))[x]];
      && r in t && (t[r].DirEntry? ==> r in Canonical(c, k, t))
      && EntryLinks(c, k, t, d)[x] == RowLink(c, t, Canonical(c, k, t), r)
  {
    hide Increasing, DirShape, NodeHash, Flatten;
    assert SortNames(ChildNames(t, d))[x] in ChildNames(t, d);
  }

  lemma FlattenDir(c: Codec, k: nat, t: Table, d: Route)
    requires k >= 2 && d in t.Keys
    ensures Flatten(DirShape(c, k, t, d)) == EntryLinks(c, k, t, d)
  {
    FlattenCollapse(EntryLinks(c, k, t, d), k);
  }

  lemma CanonicalLists(c: Codec, k: nat, t: Table, d: Route)
    requires k >= 2 && d in t.Keys && t[d].DirEntry?
    ensures ListsRows(c, t, Canonical(c, k, t), d)
    ensures Flatten(DirShape(c, k, t, d)) == EntryLinks(c, k, t, d)
  {
    hide Flatten, DirShape, EntryLinks, RowLink, Lists, SortNames, Increasing, ChildNames;
    FlattenDir(c, k, t, d);
    var shapes, items := Canonical(c, k, t), EntryLinks(c, k, t, d);
    assert Flatten(shapes[d]) == items;
    forall n ensures Lists(items, n) <==> d + [n] in t {
      EntryLinksNames(c, k, t, d, n);
    }
    forall x | 0 <= x < |items|
      ensures items[x].name.Some? && d + [NameOf(items[x])] in t
      ensures var r := d + [NameOf(items[x])]; (t[r].DirEntry? ==> r in shapes) && items[x] == RowLink(c, t, shapes, r)
    {
      EntryIsRow(c, k, t, d, x);
    }
  }

  /** Once stored, the collapsed directories realise the table. */
  lemma CanonicalRealizes(c: Codec, k: nat, store: Store, t: Table)
    requires k >= 2 && SafeRoutes(t) && Sizable(c, k, t) && TreeStored(c, k, store, t)
    ensures Realizes(c, k, store, t, Canonical(c, k, t))
  {
    hide ListsRows, EntryLinks, Collapse, Present, Listable, Compact, Flatten;
    var shapes := Canonical(c, k, t);
    forall d | d in t && t[d].DirEntry?
      ensures d in shapes && Walkable(c, k, store, shapes[d]) && ListsRows(c, t, shapes, d)
    {
      assert d in t.Keys;
      CanonicalLists(c, k, t, d);
      EntryLinksListable(c, k, t, d);
      var h := DirHeight(c, k, t, d);
    }
  }

  /** A directory of n entries fans out to height h with k^h < n <= k^(h+1). */
  lemma DirHeight(c: Codec, k: nat, t: Table, d: Route) returns (h: nat)
    requires k >= 2 && d in t.Keys
    ensures var s, n := DirShape(c, k, t, d), |ChildNames(t, d)|;
      && Compact(s, k) && Height(s) <= h && (s.Leaf? <==> n <= k)
      && n <= Pow(k, h + 1) && (n > 1 ==> Pow(k, h) < n)
  {
    hide EntryLinks, Increasing;
    var ls := EntryLinks(c, k, t, d);
    h := CollapseHeight(ls, k);
    UniformCompact(DirShape(c, k, t, d), h, k);
  }
}
