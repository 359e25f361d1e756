/** `HashtreeWriter.#build`: from logical files, and possibly a base tree, to a root. */
module Builds {
  import opened NameOrder
  import opened Manifests
  import opened Shapes
  import opened Grouping
  import opened Tables
  import opened RouteTexts
  import opened Reader
  import opened FileTrees
  import opened Trees
  import opened RoundTrip
  import opened Reachability
  import opened Writer
  import opened FileBuilds
  import opened Imports

  datatype LogicalFile = LogicalFile(text: RouteText, source: Source, size: nat) {
    function Route(): Tables.Route {
      Segments(text)
    }
  }

  datatype BaseBuild = BaseBuild(root: Hash, inventory: Store)

  datatype RouteLimits = RouteLimits(maxEntries: nat, maxRouteBytes: nat, maxRouteDepth: nat)

  /** The columns of a file row before its file is built. */
  const UNBUILT: Entry := FileEntry(0, 0, Raw)

  predicate SafeRoute(route: Route) {
    route != [] && forall i :: 0 <= i < |route| ==> SafeName(route[i])
  }

  /** The bytes of each route; a route given twice keeps the later bytes. */
  ghost function FileMap(disk: Store, files: seq<LogicalFile>): Files {
    if files == [] then map[]
    else
      var last := files[|files| - 1];
      FileMap(disk, files[..|files| - 1])[last.Route() := BodyOf(disk, last.source)]
  }

  lemma FileMapSnoc(disk: Store, files: seq<LogicalFile>, i: nat)
    requires i < |files|
    ensures FileMap(disk, files[..i + 1]) == FileMap(disk, files[..i])[files[i].Route() := BodyOf(disk, files[i].source)]
  {
    assert files[..i + 1][..i] == files[..i];
  }

  ghost function Blanks(rs: set<Route>): Table {
    map r | r in rs :: UNBUILT
  }

  // ---- Rows ----

  /** Insert the rows of one file: its own, replacing whatever is there, and those of the
      directories above it, where there is none yet. */
  method InsertRows(table: Table, route: Route) returns (r: Table)
    ensures r == InsertFile(table, route, UNBUILT)
  {
    r := table[route := UNBUILT];
    for depth := 0 to |route|
      invariant forall d :: d in r <==> d in table || d == route || (|d| < depth && route[..|d|] == d)
      invariant forall d :: d in r ==> r[d] == if d == route then UNBUILT else if d in table then table[d] else DirEntry
    {
      var path := route[..depth];
      if path !in r {
        r := r[path := DirEntry];
      }
    }
    RowsInserted(table, route, r);
  }

  lemma RowsInserted(table: Table, route: Route, r: Table)
    requires forall d :: d in r <==> d in table || d == route || (|d| < |route| && route[..|d|] == d)
    requires forall d :: d in r ==> r[d] == if d == route then UNBUILT else if d in table then table[d] else DirEntry
    ensures r == InsertFile(table, route, UNBUILT)
  {
    var expected := InsertFile(table, route, UNBUILT);
    assert (map[route := UNBUILT]).Keys == {route};
    forall d ensures d in r <==> d in expected {
      AboveOne(route, d);
    }
    assert r.Keys == expected.Keys;
  }

  lemma AboveOne(route: Route, d: Route)
    ensures Above({route}, d) <==> |d| < |route| && route[..|d|] == d
  {
    assert route in {route};
  }

  /** What the writer asks of one route. */
  predicate RouteOk(limits: RouteLimits, file: LogicalFile) {
    SafeRoute(file.Route()) && |Utf8(file.text)| <= limits.maxRouteBytes && |file.Route()| <= limits.maxRouteDepth
  }

  /** The first `n` routes strictly increase by the bytes of their text. */
  ghost predicate Ascending(files: seq<LogicalFile>, n: nat)
    requires n <= |files|
  {
    forall x, y :: 0 <= x < y < n ==> ByteLess(files[x].text, files[y].text)
  }

  /** What the writer asks of the list of files: not too many, each route acceptable, in order. */
  ghost predicate RoutesOk(limits: RouteLimits, files: seq<LogicalFile>) {
    && |files| <= limits.maxEntries
    && (forall i :: 0 <= i < |files| ==> RouteOk(limits, files[i]))
    && Ascending(files, |files|)
  }

  /** The insertion loop with the checks it makes on each route. */
  method InsertFiles(limits: RouteLimits, table: Table, files: seq<LogicalFile>, ghost disk: Store) returns (r: Result<Table>)
    ensures r.Ok? ==> r.value == Overlay(table, Blanks(FileMap(disk, files).Keys))
    ensures r.Ok? <==> RoutesOk(limits, files)
    ensures r.Ok? ==> forall i, j :: 0 <= i < j < |files| ==> files[i].Route() != files[j].Route()
  {
    hide Overlay, ByteLe, ByteLess, RouteOk, Segments;
    var now := table;
    var previous: Option<string> := None;
    OverlayNone(table);
    assert Blanks(FileMap(disk, files[..0]).Keys) == map[];
    for i := 0 to |files|
      invariant now == Overlay(table, Blanks(FileMap(disk, files[..i]).Keys))
      invariant i <= limits.maxEntries && forall j :: 0 <= j < i ==> RouteOk(limits, files[j])
      invariant previous == if i == 0 then None else Some(files[i - 1].text)
      invariant Ascending(files, i)
    {
      var route := files[i].Route();
      if i + 1 > limits.maxEntries || !RouteOk(limits, files[i]) {
        return Err(UnsafeRoute);
      }
      var text: string := files[i].text;
      NextAscending(files, i);
      if previous.Some? && ByteLe(text, previous.value) {
        return Err(UnsafeRoute);
      }
      now := InsertRows(now, route);
      InsertBlank(table, FileMap(disk, files[..i]).Keys, route);
      FileMapSnoc(disk, files, i);
      assert FileMap(disk, files[..i + 1]).Keys == FileMap(disk, files[..i]).Keys + {route};
      previous := Some(text);
    }
    assert files[..|files|] == files;
    RoutesDistinct(files);
    return Ok(now);
  }

  /** Comparing with the previous route is enough. */
  lemma NextAscending(files: seq<LogicalFile>, i: nat)
    requires i < |files| && Ascending(files, i)
    ensures Ascending(files, i + 1) <==> i == 0 || !ByteLe(files[i].text, files[i - 1].text)
    ensures Ascending(files, |files|) ==> Ascending(files, i + 1)
  {
    hide ByteLe, Segments;
    if i > 0 {
      var last, text := files[i - 1].text, files[i].text;
      ByteTotal(last, text);
      if !ByteLe(text, last) {
        forall x | 0 <= x < i ensures ByteLess(files[x].text, text) {
          if x < i - 1 { ByteTransitive(files[x].text, last, text); }
        }
      }
    }
  }

  lemma RoutesDistinct(files: seq<LogicalFile>)
    requires Ascending(files, |files|)
    ensures forall i, j :: 0 <= i < j < |files| ==> files[i].Route() != files[j].Route()
  {
    hide ByteLe, Segments;
    forall i, j | 0 <= i < j < |files| ensures files[i].Route() != files[j].Route() {
      SegmentsTexts(files[i].text, files[j].text);
    }
  }

  lemma OverlayNone(t: Table)
    ensures Overlay(t, map[]) == t
  {
    var empty: Table := map[];
    assert forall d :: !Above(empty.Keys, d);
  }

  lemma InsertBlank(t: Table, rs: set<Route>, route: Route)
    ensures InsertFile(Overlay(t, Blanks(rs)), route, UNBUILT) == Overlay(t, Blanks(rs + {route}))
  {
    hide Overlay;
    OverlayExtend(t, Blanks(rs), route, UNBUILT);
    assert Blanks(rs)[route := UNBUILT] == Blanks(rs + {route});
  }

  /** Updating the row of an overlaid file. */
  lemma OverlayUpdate(t: Table, files: Table, r: Route, e: Entry)
    requires r in files
    ensures r in Overlay(t, files) && Overlay(t, files)[r := e] == Overlay(t, files[r := e])
  {
    assert files[r := e].Keys == files.Keys;
    var a, b := Overlay(t, files)[r := e], Overlay(t, files[r := e]);
    assert a.Keys == b.Keys;
  }

  // ---- Building the files ----

  /** Blank rows for every file, with the first `i` built. */
  ghost function PartRows(c: Codec, k: nat, disk: Store, files: seq<LogicalFile>, i: nat): Table
    requires k >= 2 && i <= |files|
  {
    Blanks(FileMap(disk, files).Keys) + FileRows(c, k, FileMap(disk, files[..i]))
  }

  ghost predicate FilesBuilt(c: Codec, k: nat, inventory: Store, refs: set<Ref>, bodies: Files)
    requires k >= 2
  {
    forall r :: r in bodies ==>
      && |bodies[r]| <= MAX_SAFE && FileStored(c, k, inventory, bodies[r])
      && Ref(FileHash(c, k, bodies[r]), FileKind(bodies[r])) in refs
  }

  lemma FileStoredExtends(c: Codec, k: nat, a: Store, b: Store, body: Bytes)
    requires k >= 2 && FileStored(c, k, a, body) && Extends(a, b)
    ensures FileStored(c, k, b, body)
  {
    hide Present, Collapse, Groups;
    if |Chunks(body)| > 1 { PresentExtends(c, FileTree, a, b, FileShape(c, k, body)); }
  }

  lemma FilesBuiltExtends(c: Codec, k: nat, a: Store, b: Store, refs: set<Ref>, refs': set<Ref>, bodies: Files)
    requires k >= 2 && FilesBuilt(c, k, a, refs, bodies) && Extends(a, b) && refs <= refs'
    ensures FilesBuilt(c, k, b, refs', bodies)
  {
    hide FileStored, FileHash, FileKind, Extends;
    forall r | r in bodies ensures FileStored(c, k, b, bodies[r]) {
      FileStoredExtends(c, k, a, b, bodies[r]);
    }
  }

  lemma FilesBuiltMore(c: Codec, k: nat, inventory: Store, refs: set<Ref>, bodies: Files, r: Route, body: Bytes, e: Entry)
    requires k >= 2 && FilesBuilt(c, k, inventory, refs, bodies) && BuiltFile(c, k, inventory, refs, body, e)
    ensures FilesBuilt(c, k, inventory, refs, bodies[r := body])
    ensures FileRows(c, k, bodies[r := body]) == FileRows(c, k, bodies)[r := e]
  {
    hide FileStored, FileHash, FileKind;
  }

  lemma FileMapHas(disk: Store, files: seq<LogicalFile>, i: nat)
    requires i < |files|
    ensures files[i].Route() in FileMap(disk, files)
  {
    if i < |files| - 1 {
      FileMapHas(disk, files[..|files| - 1], i);
    }
  }

  lemma PartRowsStep(c: Codec, k: nat, disk: Store, files: seq<LogicalFile>, i: nat, e: Entry)
    requires k >= 2 && i < |files|
    requires FileRows(c, k, FileMap(disk, files[..i + 1])) == FileRows(c, k, FileMap(disk, files[..i]))[files[i].Route() := e]
    ensures files[i].Route() in PartRows(c, k, disk, files, i)
    ensures PartRows(c, k, disk, files, i)[files[i].Route() := e] == PartRows(c, k, disk, files, i + 1)
  {
    hide FileRows, FileMap;
    FileMapHas(disk, files, i);
    PutOnTop(Blanks(FileMap(disk, files).Keys), FileRows(c, k, FileMap(disk, files[..i])), files[i].Route(), e);
  }

  lemma PutOnTop(below: Table, above: Table, r: Route, e: Entry)
    ensures (below + above)[r := e] == below + above[r := e]
  {
  }

  /** The first `n` files can be built within the plan. */
  ghost predicate FilesBuildable(c: Codec, k: nat, plan: Store, disk: Store, files: seq<LogicalFile>, n: nat)
    requires k >= 2 && n <= |files|
  {
    forall i :: 0 <= i < n ==> Buildable(c, k, plan, disk, files[i].source, files[i].size)
  }

  lemma BuildableMore(c: Codec, k: nat, a: Store, b: Store, disk: Store, files: seq<LogicalFile>, n: nat)
    requires k >= 2 && n < |files| && FilesBuildable(c, k, a, disk, files, n) && Extends(a, b)
    requires Buildable(c, k, b, disk, files[n].source, files[n].size)
    ensures FilesBuildable(c, k, b, disk, files, n + 1)
  {
    hide FileStored, Extends, BodyOf, WellCut;
    forall i | 0 <= i < n ensures Buildable(c, k, b, disk, files[i].source, files[i].size) {
      FileStoredExtends(c, k, a, b, BodyOf(disk, files[i].source));
    }
  }

  lemma BuildableAt(c: Codec, k: nat, plan: Store, disk: Store, files: seq<LogicalFile>, i: nat)
    requires k >= 2 && i < |files| && FilesBuildable(c, k, plan, disk, files, |files|)
    ensures Buildable(c, k, plan, disk, files[i].source, files[i].size)
  {
    hide Buildable;
  }

  /** `for (const file of ...) buildFile(file)` and the row updates. */
  method BuildFiles(run: WriterRun, disk: Store, table: Table, files: seq<LogicalFile>, ghost under: Table) returns (r: Result<Table>)
    requires run.Valid() && Addressed(run.c, disk)
    requires table == Overlay(under, Blanks(FileMap(disk, files).Keys))
    modifies run
    ensures run.Valid() && Extends(old(run.inventory), run.inventory) && old(run.refs) <= run.refs
    ensures r.Ok? ==> r.value == Overlay(under, FileRows(run.c, run.k, FileMap(disk, files)))
    ensures r.Ok? ==> FilesBuilt(run.c, run.k, run.inventory, run.refs, FileMap(disk, files))
    ensures r.Ok? ==> FilesBuildable(run.c, run.k, run.inventory, disk, files, |files|)
    ensures old(run.Fits()) && FilesBuildable(run.c, run.k, run.plan, disk, files, |files|) ==> r.Ok? && run.Fits()
  {
    hide Extends, Overlay, FilesBuilt, BuiltFile, FileRows, FileMap, PartRows, BodyOf, WriterRun.Valid, WriterRun.Fits, FilesBuildable, Buildable;
    ghost var k := run.k;
    var now := table;
    ExtendsSelf(run.inventory);
    run.ValidLimits();
    StartFiles(run.c, k, disk, files, run.inventory, run.refs);
    ghost var roomy := run.Fits() && FilesBuildable(run.c, k, run.plan, disk, files, |files|);
    for i := 0 to |files|
      invariant run.Valid() && Extends(old(run.inventory), run.inventory) && old(run.refs) <= run.refs
      invariant now == Overlay(under, PartRows(run.c, k, disk, files, i))
      invariant FilesBuilt(run.c, k, run.inventory, run.refs, FileMap(disk, files[..i]))
      invariant FilesBuildable(run.c, k, run.inventory, disk, files, i)
      invariant roomy ==> run.Fits()
    {
      ghost var before, refs := run.inventory, run.refs;
      ghost var bodies := FileMap(disk, files[..i]);
      ghost var body := BodyOf(disk, files[i].source);
      var route := files[i].Route();
      if roomy { BuildableAt(run.c, k, run.plan, disk, files, i); }
      var built := BuildFile(run, disk, files[i].source, files[i].size);
      ExtendsTrans(old(run.inventory), before, run.inventory);
      var e :- built;
      FilesBuiltExtends(run.c, k, before, run.inventory, refs, run.refs, bodies);
      FilesBuiltMore(run.c, k, run.inventory, run.refs, bodies, route, body, e);
      BuildableMore(run.c, k, before, run.inventory, disk, files, i);
      FileMapSnoc(disk, files, i);
      PartRowsStep(run.c, k, disk, files, i, e);
      OverlayUpdate(under, PartRows(run.c, k, disk, files, i), route, e);
      now := now[route := e];
    }
    AllFiles(run.c, k, disk, files);
    return Ok(now);
  }

  lemma StartFiles(c: Codec, k: nat, disk: Store, files: seq<LogicalFile>, inventory: Store, refs: set<Ref>)
    requires k >= 2
    ensures PartRows(c, k, disk, files, 0) == Blanks(FileMap(disk, files).Keys)
    ensures FilesBuilt(c, k, inventory, refs, FileMap(disk, files[..0])) && FilesBuildable(c, k, inventory, disk, files, 0)
  {
    assert FileMap(disk, files[..0]) == map[];
  }

  lemma AllFiles(c: Codec, k: nat, disk: Store, files: seq<LogicalFile>)
    requires k >= 2
    ensures PartRows(c, k, disk, files, |files|) == FileRows(c, k, FileMap(disk, files))
    ensures files[..|files|] == files
  {
    assert files[..|files|] == files;
    BlanksCovered(c, k, FileMap(disk, files));
  }

  lemma BlanksCovered(c: Codec, k: nat, bodies: Files)
    requires k >= 2
    ensures Blanks(bodies.Keys) + FileRows(c, k, bodies) == FileRows(c, k, bodies)
  {
    hide FileHash, FileKind;
  }

  // ---- Building the directories ----

  /** `ORDER BY CAST(name AS BLOB)` over the children of a directory. */
  method SortedChildren(table: Table, d: Route) returns (names: seq<Name>)
    ensures names == SortNames(ChildNames(table, d))
  {
    hide ByteLe;
    var rest := ChildNames(table, d);
    names := [];
    while rest != {}
      invariant Increasing(names) && (forall n, m :: n in names && m in rest ==> ByteLess(n, m))
      invariant forall n :: n in ChildNames(table, d) <==> n in names || n in rest
      decreases |rest|
    {
      LeastWitness(rest);
      var m :| m in rest && forall n :: n in rest ==> ByteLe(m, n);
      names := names + [m];
      rest := rest - {m};
    }
    IncreasingUnique(names, SortNames(ChildNames(table, d)));
  }

  /** A directory as it has to come out. */
  ghost predicate DirBuilt(c: Codec, k: nat, inventory: Store, refs: set<Ref>, t: Table, d: Route, b: Built)
    requires k >= 2 && d in t.Keys
  {
    var s := DirShape(c, k, t, d);
    && b == Built(NodeHash(c, DirTree, s), SumSizes(EntryLinks(c, k, t, d)), NodeKind(DirTree, s))
    && b.size <= MAX_SAFE && Present(c, DirTree, inventory, s) && Ref(b.hash, b.kind) in refs
  }

  lemma DirBuiltExtends(c: Codec, k: nat, a: Store, b: Store, refs: set<Ref>, refs': set<Ref>, t: Table, d: Route, x: Built)
    requires k >= 2 && d in t.Keys && DirBuilt(c, k, a, refs, t, d, x) && Extends(a, b) && refs <= refs'
    ensures DirBuilt(c, k, b, refs', t, d, x)
  {
    hide Present, DirShape, EntryLinks, NodeHash, Extends;
    PresentExtends(c, DirTree, a, b, DirShape(c, k, t, d));
  }

  /** The link of a built child is the link the directory's definition asks for. */
  lemma ChildEntryLink(c: Codec, k: nat, inventory: Store, refs: set<Ref>, t: Table, d: Route, names: seq<Name>, i: nat, b: Built)
    requires k >= 2 && d in t.Keys && names == SortNames(ChildNames(t, d)) && i < |names|
    requires RowsReferenced(t, refs)
    requires var p := d + [names[i]]; p in t.Keys && (t[p].DirEntry? ==> DirBuilt(c, k, inventory, refs, t, p, b))
    ensures var p := d + [names[i]];
      var l := if t[p].FileEntry? then Link(t[p].hash, t[p].size, t[p].kind, Some(names[i]), None)
               else Link(b.hash, b.size, b.kind, Some(names[i]), None);
      l == EntryLinks(c, k, t, d)[i] && RefOf(l) in refs
  {
    hide Present, NodeHash, Increasing, DirShape, Flatten;
    var p := d + [names[i]];
    if t[p].DirEntry? { FlattenDir(c, k, t, p); }
  }

  /** The links of a directory, read from the rows of its children. */
  method DirectoryLinks(table: Table, built: map<Route, Built>, d: Route,
                        ghost c: Codec, ghost k: nat, ghost inventory: Store, ghost refs: set<Ref>)
    returns (links: seq<Link>)
    requires k >= 2 && d in table.Keys && RowsReferenced(table, refs)
    requires forall p :: p in table.Keys && table[p].DirEntry? && |p| > |d| ==>
               p in built && DirBuilt(c, k, inventory, refs, table, p, built[p])
    ensures links == EntryLinks(c, k, table, d)
    ensures forall i :: 0 <= i < |links| ==> links[i].bounds.None? && RefOf(links[i]) in refs
  {
    hide DirBuilt, EntryLinks, SortNames, ChildNames, RowsReferenced, Increasing;
    var names := SortedChildren(table, d);
    links := [];
    for i := 0 to |names|
      invariant |links| == i
      invariant forall j :: 0 <= j < i ==>
                  links[j] == EntryLinks(c, k, table, d)[j] && links[j].bounds.None? && RefOf(links[j]) in refs
    {
      var p := d + [names[i]];
      ChildIsRow(table, d, names, i);
      var e := if p in table then table[p] else DirEntry;
      ghost var b := if e.DirEntry? then built[p] else Built(0, 0, Raw);
      ChildEntryLink(c, k, inventory, refs, table, d, names, i, b);
      match e {
        case FileEntry(hash, size, kind) => links := links + [Link(hash, size, kind, Some(names[i]), None)];
        case DirEntry => links := links + [Link(built[p].hash, built[p].size, built[p].kind, Some(names[i]), None)];
      }
    }
  }

  lemma ChildIsRow(t: Table, d: Route, names: seq<Name>, i: nat)
    requires names == SortNames(ChildNames(t, d)) && i < |names|
    ensures d + [names[i]] in t.Keys
  {
    assert names[i] in ChildNames(t, d);
  }

  lemma {:induction false} DeepestExists(ds: set<Route>)
    requires ds != {}
    ensures exists d :: d in ds && forall e :: e in ds ==> |e| <= |d|
  {
    var x :| x in ds;
    if ds == {x} {
      assert forall e :: e in ds ==> |e| <= |x|;
    } else {
      DeepestExists(ds - {x});
      var y :| y in ds - {x} && forall e :: e in ds - {x} ==> |e| <= |y|;
      var d := if |x| > |y| then x else y;
      assert d in ds && forall e :: e in ds ==> |e| <= |d|;
    }
  }

  function DirRoutes(table: Table): set<Route> {
    set d | d in table && table[d].DirEntry?
  }

  ghost predicate AllBuilt(c: Codec, k: nat, inventory: Store, refs: set<Ref>, t: Table, built: map<Route, Built>)
    requires k >= 2
  {
    forall d :: d in built ==> d in t.Keys && t[d].DirEntry? && DirBuilt(c, k, inventory, refs, t, d, built[d])
  }

  lemma AllBuiltExtends(c: Codec, k: nat, a: Store, b: Store, refs: set<Ref>, refs': set<Ref>, t: Table, built: map<Route, Built>)
    requires k >= 2 && AllBuilt(c, k, a, refs, t, built) && Extends(a, b) && refs <= refs'
    ensures AllBuilt(c, k, b, refs', t, built)
  {
    hide DirBuilt, Extends;
    forall d | d in built ensures DirBuilt(c, k, b, refs', t, d, built[d]) {
      DirBuiltExtends(c, k, a, b, refs, refs', t, d, built[d]);
    }
  }

  lemma CollapsedDir(c: Codec, k: nat, inventory: Store, refs: set<Ref>, t: Table, d: Route, b: Built)
    requires k >= 2 && d in t.Keys
    requires var s := Collapse(EntryLinks(c, k, t, d), k);
      && b == Built(NodeHash(c, DirTree, s), SumSizes(EntryLinks(c, k, t, d)), NodeKind(DirTree, s)) && b.size <= MAX_SAFE
      && Present(c, DirTree, inventory, s) && Ref(b.hash, b.kind) in refs
    ensures DirBuilt(c, k, inventory, refs, t, d, b)
  {
    hide Present, NodeHash, EntryLinks, Collapse;
  }

  /** The plan has the manifests of a directory, and its bytes can be counted. */
  ghost predicate DirForeseen(c: Codec, k: nat, plan: Store, t: Table, d: Route)
    requires k >= 2 && d in t.Keys
  {
    Present(c, DirTree, plan, DirShape(c, k, t, d)) && SumSizes(EntryLinks(c, k, t, d)) <= MAX_SAFE
  }

  lemma ShapeForeseen(c: Codec, k: nat, plan: Store, t: Table, d: Route)
    requires k >= 2 && d in t.Keys && DirForeseen(c, k, plan, t, d)
    ensures Foreseen(c, DirTree, plan, Collapse(EntryLinks(c, k, t, d), k))
  {
    hide Present, Collapse, EntryLinks;
    FlattenCollapse(EntryLinks(c, k, t, d), k);
  }

  /** One directory whose deeper directories are all built. */
  method BuildDirectory(run: WriterRun, table: Table, built: map<Route, Built>, d: Route) returns (r: Result<Built>)
    requires run.Valid() && RowsReferenced(table, run.refs) && d in table.Keys
    requires AllBuilt(run.c, run.k, run.inventory, run.refs, table, built)
    requires forall p :: p in DirRoutes(table) && |p| > |d| ==> p in built
    modifies run
    ensures run.Valid() && Extends(old(run.inventory), run.inventory) && old(run.refs) <= run.refs
    ensures AllBuilt(run.c, run.k, run.inventory, run.refs, table, built)
    ensures r.Ok? ==> DirBuilt(run.c, run.k, run.inventory, run.refs, table, d, r.value)
    ensures old(run.Fits()) && DirForeseen(run.c, run.k, run.plan, table, d) ==> r.Ok? && run.Fits()
  {
    hide WriterRun.Fits, Foreseen, DirForeseen, Extends, DirBuilt, WriterRun.Valid, Present, Collapse, NodeHash, EntryLinks, SumSizes, RowsReferenced;
    run.ValidLimits();
    var links := DirectoryLinks(table, built, d, run.c, run.k, run.inventory, run.refs);
    if DirForeseen(run.c, run.k, run.plan, table, d) { ShapeForeseen(run.c, run.k, run.plan, table, d); }
    var collapsed := run.CollapseRows(DirTree, links);
    AllBuiltExtends(run.c, run.k, old(run.inventory), run.inventory, old(run.refs), run.refs, table, built);
    var b :- collapsed;
    CollapsedDir(run.c, run.k, run.inventory, run.refs, table, d, b);
    return Ok(b);
  }

  lemma ReferencedMore(rows: Table, refs: set<Ref>, refs': set<Ref>)
    requires RowsReferenced(rows, refs) && refs <= refs'
    ensures RowsReferenced(rows, refs')
  {
  }

  lemma AllBuiltMore(c: Codec, k: nat, inventory: Store, refs: set<Ref>, t: Table, built: map<Route, Built>, d: Route, b: Built)
    requires k >= 2 && AllBuilt(c, k, inventory, refs, t, built) && d in t.Keys && t[d].DirEntry?
    requires DirBuilt(c, k, inventory, refs, t, d, b)
    ensures AllBuilt(c, k, inventory, refs, t, built[d := b])
  {
    hide DirBuilt;
  }

  /** Directories are built deepest first, so that every child's link is known. */
  method BuildDirectories(run: WriterRun, table: Table) returns (r: Result<map<Route, Built>>)
    requires run.Valid() && RowsReferenced(table, run.refs)
    modifies run
    ensures run.Valid() && Extends(old(run.inventory), run.inventory) && old(run.refs) <= run.refs
    ensures r.Ok? ==> r.value.Keys == DirRoutes(table) && AllBuilt(run.c, run.k, run.inventory, run.refs, table, r.value)
    ensures old(run.Fits()) && DirsStored(run.c, run.k, run.plan, table) ==> r.Ok? && run.Fits()
  {
    hide WriterRun.Fits, DirForeseen, DirsStored, Extends, DirBuilt, WriterRun.Valid, AllBuilt, RowsReferenced;
    var built: map<Route, Built> := map[];
    var remaining := DirRoutes(table);
    ExtendsSelf(run.inventory);
    run.ValidLimits();
    NoneBuilt(run.c, run.k, run.inventory, run.refs, table);
    ghost var roomy := run.Fits() && DirsStored(run.c, run.k, run.plan, table);
    while remaining != {}
      invariant run.Valid() && Extends(old(run.inventory), run.inventory) && old(run.refs) <= run.refs
      invariant remaining <= DirRoutes(table) && built.Keys == DirRoutes(table) - remaining
      invariant AllBuilt(run.c, run.k, run.inventory, run.refs, table, built)
      invariant roomy ==> run.Fits()
      decreases |remaining|
    {
      DeepestExists(remaining);
      var d :| d in remaining && forall e :: e in remaining ==> |e| <= |d|;
      assert d in DirRoutes(table);
      ghost var before := run.inventory;
      ReferencedMore(table, old(run.refs), run.refs);
      if roomy { DirStoredAt(run.c, run.k, run.plan, table, d); }
      var one := BuildDirectory(run, table, built, d);
      ExtendsTrans(old(run.inventory), before, run.inventory);
      var b :- one;
      AllBuiltMore(run.c, run.k, run.inventory, run.refs, table, built, d, b);
      built := built[d := b];
      remaining := remaining - {d};
    }
    return Ok(built);
  }

  lemma DirStoredAt(c: Codec, k: nat, plan: Store, t: Table, d: Route)
    requires k >= 2 && DirsStored(c, k, plan, t) && d in DirRoutes(t)
    ensures DirForeseen(c, k, plan, t, d)
  {
    hide Present, DirShape, EntryLinks;
  }

  lemma NoneBuilt(c: Codec, k: nat, inventory: Store, refs: set<Ref>, t: Table)
    requires k >= 2
    ensures AllBuilt(c, k, inventory, refs, t, map[])
  {
  }

  // ---- The whole build ----

  /** `registerCandidate` for every blob of the base. */
  method RegisterBase(run: WriterRun, base: Store, ghost baseRefs: set<Ref>) returns (r: Result<()>)
    requires run.Valid() && Addressed(run.c, base) && ClosedRefs(run.c, base, baseRefs)
    modifies run
    ensures run.Valid() && Extends(old(run.inventory), run.inventory) && old(run.refs) <= run.refs
    ensures r.Ok? ==> Extends(base, run.inventory) && baseRefs <= run.refs
    ensures old(run.Fits()) && Extends(base, run.plan) ==> r.Ok? && run.Fits()
  {
    hide WriterRun.Fits, ClosedRefs, Faithful, Ledger;
    ghost var roomy := run.Fits() && Extends(base, run.plan);
    var rest := base.Keys;
    while rest != {}
      invariant run.Valid() && Extends(old(run.inventory), run.inventory) && old(run.refs) <= run.refs
      invariant rest <= base.Keys
      invariant forall h :: h in base && h !in rest ==> h in run.inventory && run.inventory[h] == base[h]
      invariant roomy ==> run.Fits()
      decreases |rest|
    {
      var h :| h in rest;
      var registered :- run.Persist(base[h], Raw);
      rest := rest - {h};
    }
    run.Adopt(base, baseRefs);
    return Ok(());
  }

  /** The base is a tree for table `t`, rooted in one directory manifest. */
  ghost predicate BaseTree(c: Codec, k: nat, base: BaseBuild, t: Table, shapes: ShapeMap) {
    && Faithful(c) && Realizes(c, k, base.inventory, t, shapes) && FileKinds(t)
    && [] in t && t[[]].DirEntry? && base.root == NodeHash(c, DirTree, shapes[[]])
  }

  /** A base the writer imports: its root is one directory manifest, and every manifest that is read
      is within the ceiling, encoded and decoded. */
  ghost predicate Importable(c: Codec, k: nat, maxBytes: nat, base: BaseBuild, t: Table, shapes: ShapeMap) {
    BaseTree(c, k, base, t, shapes) && shapes[[]].Leaf? && LightRows(c, maxBytes, shapes, VisibleRows(t))
  }

  lemma ImportableIsBase(c: Codec, k: nat, maxBytes: nat, base: BaseBuild, t: Table, shapes: ShapeMap)
    ensures Importable(c, k, maxBytes, base, t, shapes) ==> BaseTree(c, k, base, t, shapes)
  {
    hide BaseTree, LightRows;
  }

  /** Read the base's rows. */
  method ImportBase(run: WriterRun, base: BaseBuild, ghost rank: Hash -> nat, ghost baseRefs: set<Ref>,
                    ghost t: Table, ghost shapes: ShapeMap)
    returns (r: Result<Table>)
    requires run.Valid() && Addressed(run.c, base.inventory) && Acyclic(run.c, base.inventory, rank)
    requires ClosedRefs(run.c, base.inventory, baseRefs) && Ref(base.root, Directory) in baseRefs
    modifies run
    ensures run.Valid() && Extends(old(run.inventory), run.inventory) && old(run.refs) <= run.refs
    ensures r.Ok? ==> RowsReferenced(r.value, run.refs) && [] in r.value.Keys && Extends(base.inventory, run.inventory)
    ensures r.Ok? && BaseTree(run.c, run.k, base, t, shapes) ==>
              Importable(run.c, run.k, run.maxBytes, base, t, shapes) && r.value == VisibleRows(t)
    ensures old(run.Fits()) && Extends(base.inventory, run.plan) && Importable(run.c, run.k, run.maxBytes, base, t, shapes)
            ==> r.Ok? && run.Fits()
  {
    hide WriterRun.Fits, ClosedRefs, WriterRun.Valid, Extends, Walkable, ListsRows, Addressed, Acyclic, NodeHash, Flatten, ChildNames, Light, LightRows, LightManifest;
    var registered :- RegisterBase(run, base.inventory, baseRefs);
    var start: Table := map[[] := DirEntry];
    ghost var known := BaseTree(run.c, run.k, base, t, shapes);
    ghost var s := if known then shapes[[]] else Leaf([]);
    if known {
      RootPart(run.c, run.k, base.inventory, t, shapes);
      RootLight(run.c, run.k, run.maxBytes, base.inventory, t, shapes);
    }
    var rows :- ImportDirectory(run.c, run.k, run.maxBytes, base.inventory, base.root, Directory, [], start, rank, baseRefs, t, shapes, s);
    assert RowsReferenced(start, baseRefs);
    ReferencedMore(rows, baseRefs, run.refs);
    if [] !in rows {
      return Err(NoRoot);
    }
    return Ok(rows);
  }

  lemma RootPart(c: Codec, k: nat, store: Store, t: Table, shapes: ShapeMap)
    requires Faithful(c) && Realizes(c, k, store, t, shapes) && FileKinds(t) && [] in t && t[[]].DirEntry?
    ensures PartOf(c, k, store, t, shapes, [], shapes[[]])
    ensures Fresh(map[[] := DirEntry], [], NameSet(Flatten(shapes[[]])))
    ensures Imported(map[[] := DirEntry], t, [], NameSet(Flatten(shapes[[]]))) == VisibleRows(t)
  {
    hide Walkable, ListsRows, ChildNames, Flatten, RowsUnder;
    NamesAreChildren(c, k, store, t, shapes, []);
    UnderRoot(t);
  }

  lemma RootLight(c: Codec, k: nat, maxBytes: nat, store: Store, t: Table, shapes: ShapeMap)
    requires Realizes(c, k, store, t, shapes) && [] in t && t[[]].DirEntry?
    ensures Light(c, maxBytes, t, shapes, [], shapes[[]]) <==> LightRows(c, maxBytes, shapes, VisibleRows(t))
  {
    hide Walkable, ListsRows, ChildNames, Flatten, RowsUnder, LightNode, NameSet;
    NamesAreChildren(c, k, store, t, shapes, []);
    UnderRoot(t);
    var below := RowsUnder(t, [], ChildNames(t, []));
    BelowOnly(t, []);
    assert forall r :: r in VisibleRows(t) <==> r == [] || r in below;
    assert forall r :: r in below ==> VisibleRows(t)[r] == below[r];
  }

  ghost predicate DirsStored(c: Codec, k: nat, inventory: Store, t: Table)
    requires k >= 2
  {
    TreeStored(c, k, inventory, t) && forall d :: d in t.Keys && t[d].DirEntry? ==> SumSizes(EntryLinks(c, k, t, d)) <= MAX_SAFE
  }

  lemma AllBuiltStored(c: Codec, k: nat, inventory: Store, refs: set<Ref>, t: Table, built: map<Route, Built>)
    requires k >= 2 && AllBuilt(c, k, inventory, refs, t, built) && built.Keys == DirRoutes(t)
    ensures DirsStored(c, k, inventory, t)
  {
    hide Present, NodeHash, EntryLinks, DirShape;
    forall d | d in t.Keys && t[d].DirEntry? ensures d in built {
      assert d in DirRoutes(t);
    }
  }

  lemma OverlayReferenced(c: Codec, k: nat, inventory: Store, refs: set<Ref>, under: Table, bodies: Files)
    requires k >= 2 && RowsReferenced(under, refs) && FilesBuilt(c, k, inventory, refs, bodies)
    ensures RowsReferenced(Overlay(under, FileRows(c, k, bodies)), refs)
  {
    hide FileStored, FileHash, FileKind;
  }

  /** The rows a build makes its directories from. */
  ghost function Target(c: Codec, k: nat, disk: Store, files: seq<LogicalFile>, base: Option<BaseBuild>, baseTable: Table): Table
    requires k >= 2
  {
    Overlay(if base.None? then map[] else VisibleRows(baseTable), FileRows(c, k, FileMap(disk, files)))
  }

  /** When a build succeeds, provided its ceilings have room for `plan`: the routes are acceptable
      and in order, every file is as declared, the plan has all blobs of the files, the directories
      and the base, every size can be counted, the base is rooted in one directory manifest and has
      no manifest past the ceiling, and without a base there is a file. */
  ghost predicate CanBuild(c: Codec, k: nat, limits: RouteLimits, maxBytes: nat, plan: Store, disk: Store, files: seq<LogicalFile>,
                           base: Option<BaseBuild>, baseTable: Table, baseShapes: ShapeMap)
    requires k >= 2
  {
    && RoutesOk(limits, files) && FilesBuildable(c, k, plan, disk, files, |files|)
    && DirsStored(c, k, plan, Target(c, k, disk, files, base, baseTable))
    && match base
       case None => files != []
       case Some(b) => Extends(b.inventory, plan) && Importable(c, k, maxBytes, b, baseTable, baseShapes)
  }

  lemma {:induction false} SafeMap(disk: Store, files: seq<LogicalFile>)
    requires forall i :: 0 <= i < |files| ==> SafeRoute(files[i].Route())
    ensures SafeFiles(FileMap(disk, files))
  {
    hide SafeName, BodyOf;
    if files != [] {
      SafeMap(disk, files[..|files| - 1]);
    }
  }

  /** There is a root row exactly when there is a base or a file. */
  lemma RootRow(c: Codec, k: nat, limits: RouteLimits, disk: Store, files: seq<LogicalFile>, under: Table)
    requires k >= 2 && RoutesOk(limits, files) && (under == map[] || ([] in under && under[[]].DirEntry?))
    ensures var t := Overlay(under, FileRows(c, k, FileMap(disk, files)));
      [] in DirRoutes(t) <==> under != map[] || files != []
  {
    hide FileHash, FileKind, Ascending, SafeName, Utf8;
    SafeMap(disk, files);
    var bodies := FileMap(disk, files);
    if files != [] {
      FileMapHas(disk, files, 0);
      var r := files[0].Route();
      assert r in FileRows(c, k, bodies).Keys && r != [] && r[..0] == [];
      assert Above(FileRows(c, k, bodies).Keys, []);
    } else {
      assert FileRows(c, k, bodies).Keys == {};
      assert !Above(FileRows(c, k, bodies).Keys, []);
    }
  }

  /** Read the base if there is one. */
  method StartRows(run: WriterRun, base: Option<BaseBuild>, ghost rank: Hash -> nat, ghost baseRefs: set<Ref>,
                   ghost baseTable: Table, ghost baseShapes: ShapeMap)
    returns (r: Result<Table>)
    requires run.Valid()
    requires base.Some? ==>
      && Addressed(run.c, base.value.inventory) && Acyclic(run.c, base.value.inventory, rank)
      && ClosedRefs(run.c, base.value.inventory, baseRefs) && Ref(base.value.root, Directory) in baseRefs
    modifies run
    ensures run.Valid() && Extends(old(run.inventory), run.inventory)
    ensures r.Ok? ==> RowsReferenced(r.value, run.refs)
    ensures r.Ok? && base.None? ==> r.value == map[]
    ensures r.Ok? && base.Some? ==> Extends(base.value.inventory, run.inventory)
    ensures r.Ok? && base.Some? && BaseTree(run.c, run.k, base.value, baseTable, baseShapes) ==>
              && Importable(run.c, run.k, run.maxBytes, base.value, baseTable, baseShapes)
              && r.value == VisibleRows(baseTable) && [] in r.value && r.value[[]].DirEntry?
    ensures old(run.Fits())
              && (base.Some? ==> && Extends(base.value.inventory, run.plan)
                                 && Importable(run.c, run.k, run.maxBytes, base.value, baseTable, baseShapes))
            ==> r.Ok? && run.Fits()
  {
    hide WriterRun.Valid, WriterRun.Fits, Extends, ClosedRefs, Acyclic, Addressed, Realizes, NodeHash, Faithful, FileKinds, LightRows;
    if base.Some? {
      r := ImportBase(run, base.value, rank, baseRefs, baseTable, baseShapes);
    } else {
      NoRows(run.refs);
      ExtendsSelf(run.inventory);
      r := Ok(map[]);
    }
  }

  /** Build the files over the rows of the base, then the directories. */
  method BuildRows(run: WriterRun, limits: RouteLimits, disk: Store, files: seq<LogicalFile>, under: Table)
    returns (r: Result<map<Route, Built>>)
    requires run.Valid() && Addressed(run.c, disk) && RowsReferenced(under, run.refs)
    modifies run
    ensures run.Valid() && Extends(old(run.inventory), run.inventory)
    ensures r.Ok? ==>
      && RoutesOk(limits, files) && FilesBuildable(run.c, run.k, run.inventory, disk, files, |files|)
      && FilesBuilt(run.c, run.k, run.inventory, run.refs, FileMap(disk, files))
      && var t := Overlay(under, FileRows(run.c, run.k, FileMap(disk, files)));
         r.value.Keys == DirRoutes(t) && AllBuilt(run.c, run.k, run.inventory, run.refs, t, r.value)
         && DirsStored(run.c, run.k, run.inventory, t)
    ensures old(run.Fits()) && RoutesOk(limits, files) && FilesBuildable(run.c, run.k, run.plan, disk, files, |files|)
              && DirsStored(run.c, run.k, run.plan, Overlay(under, FileRows(run.c, run.k, FileMap(disk, files))))
            ==> r.Ok? && run.Fits()
  {
    hide WriterRun.Valid, WriterRun.Fits, Extends, Overlay, FileRows, FileMap, RoutesOk, RowsReferenced, AllBuilt, FilesBuilt, FilesBuildable, DirsStored, Addressed, DirRoutes;
    run.ValidLimits();
    ExtendsSelf(run.inventory);
    var blank :- InsertFiles(limits, under, files, disk);
    ghost var refs := run.refs;
    var filed := BuildFiles(run, disk, blank, files, under);
    var table :- filed;
    ghost var bodies := FileMap(disk, files);
    ReferencedMore(under, refs, run.refs);
    OverlayReferenced(run.c, run.k, run.inventory, run.refs, under, bodies);
    ghost var late, lateRefs := run.inventory, run.refs;
    var dirs := BuildDirectories(run, table);
    ExtendsTrans(old(run.inventory), late, run.inventory);
    var built :- dirs;
    FilesBuiltExtends(run.c, run.k, late, run.inventory, lateRefs, run.refs, bodies);
    AllBuildableExtends(run.c, run.k, late, run.inventory, disk, files);
    AllBuiltStored(run.c, run.k, run.inventory, run.refs, table, built);
    return Ok(built);
  }

  lemma AllBuildableExtends(c: Codec, k: nat, a: Store, b: Store, disk: Store, files: seq<LogicalFile>)
    requires k >= 2 && FilesBuildable(c, k, a, disk, files, |files|) && Extends(a, b)
    ensures FilesBuildable(c, k, b, disk, files, |files|)
  {
    hide FileStored, Extends, BodyOf, WellCut;
    forall i | 0 <= i < |files| ensures Buildable(c, k, b, disk, files[i].source, files[i].size) {
      FileStoredExtends(c, k, a, b, BodyOf(disk, files[i].source));
    }
  }

  /** Build `files` over the base, or from scratch.  The root is the root of the rows that can be
      read of the base overlaid with the files; every manifest and chunk it needs is in the
      run's inventory, and the references of the inventory are closed.  A build succeeds exactly
      when it can within some plan that the ceilings have room for. */
  method Build(run: WriterRun, limits: RouteLimits, disk: Store, files: seq<LogicalFile>, base: Option<BaseBuild>,
               ghost rank: Hash -> nat, ghost baseRefs: set<Ref>, ghost baseTable: Table, ghost baseShapes: ShapeMap)
    returns (r: Result<Built>, ghost t: Table)
    requires run.Valid() && Addressed(run.c, disk)
    requires base.Some? ==>
      && Addressed(run.c, base.value.inventory) && Acyclic(run.c, base.value.inventory, rank)
      && ClosedRefs(run.c, base.value.inventory, baseRefs) && Ref(base.value.root, Directory) in baseRefs
    modifies run
    ensures run.Valid() && Extends(old(run.inventory), run.inventory)
    ensures r.Ok? && (base.Some? ==> BaseTree(run.c, run.k, base.value, baseTable, baseShapes)) ==>
      && t == Target(run.c, run.k, disk, files, base, baseTable)
      && CanBuild(run.c, run.k, limits, run.maxBytes, run.inventory, disk, files, base, baseTable, baseShapes)
    ensures r.Ok? ==>
      && r.value.hash == RootHash(run.c, run.k, t) && Ref(r.value.hash, r.value.kind) in run.refs && r.value.kind != Raw
      && FilesBuilt(run.c, run.k, run.inventory, run.refs, FileMap(disk, files))
      && DirsStored(run.c, run.k, run.inventory, t) && RoutesOk(limits, files)
    ensures old(run.Fits()) && CanBuild(run.c, run.k, limits, run.maxBytes, run.plan, disk, files, base, baseTable, baseShapes)
            ==> r.Ok? && run.Fits()
  {
    hide WriterRun.Valid, WriterRun.Fits, Extends, Overlay, FileRows, FileMap, ClosedRefs, BaseTree, Importable, RoutesOk, RowsReferenced, AllBuilt,
      FilesBuilt, FilesBuildable, DirsStored, VisibleRows, Addressed, Acyclic, DirRoutes;
    t := map[];
    run.ValidLimits();
    if base.Some? { ImportableIsBase(run.c, run.k, run.maxBytes, base.value, baseTable, baseShapes); }
    var started := StartRows(run, base, rank, baseRefs, baseTable, baseShapes);
    var under :- started;
    ghost var mid := run.inventory;
    var rows := BuildRows(run, limits, disk, files, under);
    ExtendsTrans(old(run.inventory), mid, run.inventory);
    if base.Some? { ExtendsTrans(base.value.inventory, mid, run.inventory); }
    var built :- rows;
    t := Overlay(under, FileRows(run.c, run.k, FileMap(disk, files)));
    if base.None? || BaseTree(run.c, run.k, base.value, baseTable, baseShapes) {
      RootRow(run.c, run.k, limits, disk, files, under);
    }
    if [] !in built {
      return Err(NoRoot), t;
    }
    RootBuilt(run.c, run.k, run.inventory, run.refs, t, built);
    return Ok(built[[]]), t;
  }

  lemma NoRows(refs: set<Ref>)
    ensures RowsReferenced(map[], refs)
  {
  }

  lemma RootBuilt(c: Codec, k: nat, inventory: Store, refs: set<Ref>, t: Table, built: map<Route, Built>)
    requires k >= 2 && AllBuilt(c, k, inventory, refs, t, built) && [] in built
    ensures built[[]].hash == RootHash(c, k, t) && Ref(built[[]].hash, built[[]].kind) in refs && built[[]].kind != Raw
  {
    hide Present, NodeHash, EntryLinks, DirShape;
  }
}
