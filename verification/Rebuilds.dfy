/** What the build method leaves behind, read back and built upon. */
module Rebuilds {
  import opened Manifests
  import opened Shapes
  import opened Tables
  import opened Reader
  import opened FileTrees
  import opened Trees
  import opened RoundTrip
  import opened Reachability
  import opened Writer
  import opened FileBuilds
  import opened Imports
  import opened Builds

  /** What a build of `files` from scratch leaves in its inventory. */
  ghost predicate Leaves(c: Codec, k: nat, inventory: Store, refs: set<Ref>, files: Files)
    requires k >= 2
  {
    && Acceptable(files) && FilesBuilt(c, k, inventory, refs, files)
    && DirsStored(c, k, inventory, BuiltTable(c, k, files)) && Sizable(c, k, BuiltTable(c, k, files))
  }

  /** It can be read back: in the inventory a route of the files yields its bytes exactly when the
      root fits one manifest, nothing is in the way, every fan-out shows it and it is not empty. */
  lemma BuiltIsReadBack(c: Codec, k: nat, inventory: Store, refs: set<Ref>, files: Files, route: Route, h: nat, depth: nat, output: nat)
    requires Faithful(c) && k >= 2 && Leaves(c, k, inventory, refs, files)
    requires EnoughBudget(c, k, files, route, h, depth, output) && route in files
    ensures Get(c, k, inventory, RootHash(c, k, BuiltTable(c, k, files)), route, depth, output)
            == Delivered(|files[route]|, FileKind(files[route]), files[route])
        <==> && |ChildNames(BuiltTable(c, k, files), [])| <= k
             && Unshadowed(files, route) && Findable(c, k, files, route) && files[route] != []
  {
    hide BuiltTable, Sizable, EnoughBudget, Unshadowed, Findable, FileStored, TreeStored, Get, Faithful, ChildNames, Acceptable;
    assert Stored(c, k, inventory, files);
    ReadableIff(c, k, inventory, files, route, h, depth, output);
  }

  /** It is a base that importing accepts as the tree of those files. */
  lemma BuiltIsBase(c: Codec, k: nat, inventory: Store, refs: set<Ref>, files: Files)
    requires Faithful(c) && k >= 2 && Leaves(c, k, inventory, refs, files)
    ensures var t := BuiltTable(c, k, files);
      BaseTree(c, k, BaseBuild(RootHash(c, k, t), inventory), t, Canonical(c, k, t))
  {
    var t := BuiltTable(c, k, files);
    hide BuiltTable, Sizable, TreeStored, Canonical, Realizes, Faithful, FilesBuilt, RootHash, Acceptable;
    BuiltSafe(c, k, files);
    BuiltRoot(c, k, files);
    RootKind(c, k, t);
    CanonicalRealizes(c, k, inventory, t);
  }

  /** The one thing about an earlier build that can stop a later one: a root that fans out. */
  lemma BaseRootFits(c: Codec, k: nat, files: Files)
    requires k >= 2 && Acceptable(files)
    ensures var t := BuiltTable(c, k, files);
      [] in Canonical(c, k, t) && (Canonical(c, k, t)[[]].Leaf? <==> |ChildNames(t, [])| <= k)
  {
    hide BuiltTable, Acceptable, Compact, Pow;
    BuiltRoot(c, k, files);
    var h := DirHeight(c, k, BuiltTable(c, k, files), []);
  }

  /** Building `files` over the build of `before` gives the root of building both from scratch,
      the new files winning.  It succeeds exactly when the earlier root fits one manifest, none of
      the earlier manifests is past the ceiling and, in some plan that the ceilings have room for, the routes, files, directories and base are as
      `CanBuild` asks. */
  method BuildOver(run: WriterRun, limits: RouteLimits, disk: Store, files: seq<LogicalFile>, base: BaseBuild,
                   ghost rank: Hash -> nat, ghost baseRefs: set<Ref>, ghost before: Files)
    returns (r: Result<Built>)
    requires run.Valid() && Addressed(run.c, disk) && Faithful(run.c)
    requires Addressed(run.c, base.inventory) && Acyclic(run.c, base.inventory, rank)
    requires ClosedRefs(run.c, base.inventory, baseRefs) && Ref(base.root, Directory) in baseRefs
    requires run.k >= 2 && Leaves(run.c, run.k, base.inventory, baseRefs, before)
    requires base.root == RootHash(run.c, run.k, BuiltTable(run.c, run.k, before))
    modifies run
    ensures run.Valid() && Extends(old(run.inventory), run.inventory)
    ensures r.Ok? ==> r.value.hash == RootHash(run.c, run.k, BuiltTable(run.c, run.k, before + FileMap(disk, files)))
    ensures r.Ok? ==> CanBuildOver(run.c, run.k, limits, run.maxBytes, run.inventory, disk, files, base, before)
    ensures old(run.Fits()) && CanBuildOver(run.c, run.k, limits, run.maxBytes, run.plan, disk, files, base, before) ==> r.Ok? && run.Fits()
  {
    hide WriterRun.Valid, WriterRun.Fits, Extends, BuiltTable, RootHash, Leaves, FileMap, Acyclic, ClosedRefs, Addressed, BaseTree, Overlay, VisibleRows,
      FileRows, FilesBuilt, FilesBuildable, DirsStored, Faithful, Canonical, ChildNames, RouteOk, Ascending, LightRows;
    ghost var t := BuiltTable(run.c, run.k, before);
    BuiltIsBase(run.c, run.k, base.inventory, baseRefs, before);
    LeavesAcceptable(run.c, run.k, base.inventory, baseRefs, before);
    BaseRootFits(run.c, run.k, before);
    ghost var table;
    r, table := Build(run, limits, disk, files, Some(base), rank, baseRefs, t, Canonical(run.c, run.k, t));
    if r.Ok? {
      SafeRoutesOf(limits, files);
      SafeMap(disk, files);
      HistoryIndependence(run.c, run.k, before, FileMap(disk, files));
    }
  }

  ghost predicate CanBuildOver(c: Codec, k: nat, limits: RouteLimits, maxBytes: nat, plan: Store, disk: Store, files: seq<LogicalFile>,
                               base: BaseBuild, before: Files)
    requires k >= 2
  {
    var t := BuiltTable(c, k, before);
    && |ChildNames(t, [])| <= k && LightRows(c, maxBytes, Canonical(c, k, t), VisibleRows(t)) && RoutesOk(limits, files) && FilesBuildable(c, k, plan, disk, files, |files|)
    && Extends(base.inventory, plan) && DirsStored(c, k, plan, Target(c, k, disk, files, Some(base), t))
  }

  lemma SafeRoutesOf(limits: RouteLimits, files: seq<LogicalFile>)
    requires RoutesOk(limits, files)
    ensures forall i :: 0 <= i < |files| ==> SafeRoute(files[i].Route())
  {
    hide SafeRoute, Ascending;
  }

  lemma LeavesAcceptable(c: Codec, k: nat, inventory: Store, refs: set<Ref>, files: Files)
    requires k >= 2 && Leaves(c, k, inventory, refs, files)
    ensures Acceptable(files)
  {
  }
}
