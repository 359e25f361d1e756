/** Overlay generations: immutable snapshots of staged routes, leased by readers and pruned once
    a later one is published. */
module OverlayModel {
  import opened LeaseCounts
  import opened Eligibility

  type Route = string
  type Generation = nat

  datatype Blob = Blob(digest: string, size: nat, path: string)

  /** The staging and overlay tables, with the in-memory lease counts and newest admitted
      generation.  A generation has a key in `entries` and in `paths` until it is pruned. */
  datatype State = State(
    infos: map<PathHash, Info>,
    refs: set<(PathHash, PathHash)>,
    blobs: map<Route, Blob>,
    entries: map<Generation, map<Route, Blob>>,
    paths: map<Generation, set<PathHash>>,
    current: Generation,
    leases: map<Generation, nat>,
    admitted: Generation)

  const EMPTY_OVERLAY: State := State(map[], {}, map[], map[0 := map[]], map[0 := {}], 0, map[], 0)

  function StagedOf(s: State): Staged {
    Staged(s.infos, s.refs, s.blobs.Keys)
  }

  // ---- Committing ----

  /** The routes of the narinfos and of their NARs. */
  function RoutesOf(infos: map<PathHash, Info>, hashes: set<PathHash>): set<Route> {
    (set h | h in hashes && h in infos :: infos[h].route) + (set h | h in hashes && h in infos :: infos[h].narRoute)
  }

  /** `base` with the staged bodies of `routes` put over it. */
  function PutOver(base: map<Route, Blob>, blobs: map<Route, Blob>, routes: set<Route>): map<Route, Blob> {
    base + map r | r in routes && r in blobs :: blobs[r]
  }

  /** The next generation: a copy of the current one with `routes` and `hashes` added. */
  function Extended(s: State, routes: set<Route>, hashes: set<PathHash>): State
    requires s.current in s.entries && s.current in s.paths && routes <= s.blobs.Keys
  {
    s.(entries := s.entries[s.current + 1 := PutOver(s.entries[s.current], s.blobs, routes)],
       paths := s.paths[s.current + 1 := s.paths[s.current] + hashes],
       current := s.current + 1)
  }

  /** `commitOverlay`, failing where a narinfo or a staged body is missing. */
  function CommitOverlay(s: State, hashes: set<PathHash>): (State, bool)
    requires s.current in s.entries && s.current in s.paths
  {
    if hashes == {} then (s, true)
    else if !(hashes <= s.infos.Keys) || !(RoutesOf(s.infos, hashes) <= s.blobs.Keys) then (s, false)
    else (Extended(s, RoutesOf(s.infos, hashes), hashes), true)
  }

  function CommitRoutes(s: State, routes: set<Route>): (State, bool)
    requires s.current in s.entries && s.current in s.paths
  {
    if routes <= s.blobs.Keys then (Extended(s, routes, {}), true) else (s, false)
  }

  // ---- Leases and pruning ----

  predicate Prunable(s: State, g: Generation) {
    g in s.entries && s.entries[g] != map[] && g < s.admitted && g != s.current && g !in s.leases
  }

  /** `#pruneAdmitted` */
  function Prune(s: State): State {
    if s.admitted == 0 then s
    else s.(entries := map g | g in s.entries && !Prunable(s, g) :: s.entries[g],
            paths := map g | g in s.paths && !Prunable(s, g) :: s.paths[g])
  }

  function AcquireGeneration(s: State, g: Generation): State {
    s.(leases := Taken(s.leases, g))
  }

  function ReleaseGeneration(s: State, g: Generation): State {
    Prune(s.(leases := Dropped(s.leases, g)))
  }

  function MarkAdmitted(s: State, g: Generation): State {
    Prune(s.(admitted := if g > s.admitted then g else s.admitted))
  }

  /** A new process: the counts and the newest admission are forgotten. */
  function Restart(s: State): State {
    s.(leases := map[], admitted := 0)
  }

  // ---- Staging ----

  function RecordInfo(s: State, h: PathHash, info: Info, references: set<PathHash>): State {
    var st := RecordNarInfo(StagedOf(s), h, info, references);
    s.(infos := st.infos, refs := st.refs)
  }

  /** A route keeps its first body. */
  function StageBlob(s: State, route: Route, blob: Blob): State {
    if route in s.blobs then s else s.(blobs := s.blobs[route := blob])
  }

  function Discard(s: State, route: Route): State {
    s.(blobs := s.blobs - {route})
  }

  // ---- Runs ----

  datatype Snapshot = Snapshot(generation: Generation, entries: map<Route, Blob>, paths: set<PathHash>)

  /** `#loadGeneration`: a generation without rows loads as empty. */
  function LoadGeneration(s: State, g: Generation): Snapshot {
    Snapshot(g, if g in s.entries then s.entries[g] else map[], if g in s.paths then s.paths[g] else {})
  }

  /** The tables, the overlay's loaded snapshot, the leases handed out with their snapshots, and
      every narinfo recorded so far. */
  datatype Sys = Sys(state: State, snapshot: Snapshot, held: map<HandleId, Snapshot>, recorded: set<(PathHash, Info)>)

  function Leased(held: map<HandleId, Snapshot>): map<HandleId, Generation> {
    map id | id in held :: held[id].generation
  }

  datatype Step =
    | Record(hash: PathHash, info: Info, references: set<PathHash>)
    | Stage(route: Route, blob: Blob)
    | Drop(route: Route)
    | Commit(hashes: set<PathHash>)
    | CommitOnly(routes: set<Route>)
    | Refresh
    | Acquire(id: HandleId, generation: Generation)
    | Release(id: HandleId)
    | Admitted(generation: Generation)
    | Crash

  ghost predicate Allowed(sys: Sys, step: Step) {
    match step
    case Acquire(id, _) => id !in sys.held
    case Release(id) => id in sys.held
    case _ => true
  }

  /** `acquire`: the loaded snapshot for its own generation, a fresh load otherwise. */
  function AcquiredSnapshot(sys: Sys, g: Generation): Snapshot {
    if g == sys.snapshot.generation then sys.snapshot else LoadGeneration(sys.state, g)
  }

  ghost function Take(sys: Sys, step: Step): Sys
    requires Inv(sys) && Allowed(sys, step)
  {
    var s := sys.state;
    match step
    case Record(h, info, references) => sys.(state := RecordInfo(s, h, info, references), recorded := sys.recorded + {(h, info)})
    case Stage(route, blob) => sys.(state := StageBlob(s, route, blob))
    case Drop(route) => sys.(state := Discard(s, route))
    case Commit(hashes) => sys.(state := CommitOverlay(s, hashes).0)
    case CommitOnly(routes) => sys.(state := CommitRoutes(s, routes).0)
    case Refresh => sys.(snapshot := LoadGeneration(s, s.current))
    case Acquire(id, g) => sys.(state := AcquireGeneration(s, g), held := sys.held[id := AcquiredSnapshot(sys, g)])
    case Release(id) => sys.(state := ReleaseGeneration(s, sys.held[id].generation), held := sys.held - {id})
    case Admitted(g) => sys.(state := MarkAdmitted(s, g))
    case Crash => Sys(Restart(s), LoadGeneration(s, s.current), map[], sys.recorded)
  }

  // ---- Invariant ----

  ghost predicate Tabled(s: State) {
    && s.entries.Keys == s.paths.Keys && s.current in s.entries
    && forall g :: g in s.entries ==> g <= s.current
  }

  /** Each listed store path has the entries of a narinfo recorded for it. */
  ghost predicate Complete(s: State, recorded: set<(PathHash, Info)>) {
    && (forall h :: h in s.infos ==> (h, s.infos[h]) in recorded)
    && (forall g, h :: g in s.entries && g in s.paths && h in s.paths[g] ==> HasEntries(s.entries[g], recorded, h))
  }

  ghost predicate HasEntries(entries: map<Route, Blob>, recorded: set<(PathHash, Info)>, h: PathHash) {
    exists p :: p in recorded && p.0 == h && p.1.route in entries && p.1.narRoute in entries
  }

  /** Store paths and routes only grow from one generation to the next. */
  ghost predicate Growing(s: State) {
    forall g, j :: g in s.entries && j in s.entries && g in s.paths && j in s.paths && g <= j ==>
      s.paths[g] <= s.paths[j] && s.entries[g].Keys <= s.entries[j].Keys
  }

  /** A snapshot is what its generation holds, for as long as that has rows. */
  ghost predicate Faithful(s: State, snapshot: Snapshot) {
    && snapshot.generation <= s.current
    && (snapshot.generation in s.entries && snapshot.generation in s.paths ==> snapshot == LoadGeneration(s, snapshot.generation))
  }

  ghost predicate Inv(sys: Sys) {
    && Tabled(sys.state) && Complete(sys.state, sys.recorded) && Growing(sys.state)
    && Counted(sys.state.leases, Leased(sys.held))
    && Faithful(sys.state, sys.snapshot)
  }

  /** From `s` to `t` generations are added above the current one or pruned, never altered. */
  ghost predicate Evolves(s: State, t: State) {
    && s.current <= t.current
    && (forall g :: g in t.entries && g <= s.current ==>
          && g in s.entries && t.entries[g] == s.entries[g]
          && (g in t.paths && g in s.paths ==> t.paths[g] == s.paths[g]))
  }

  lemma EvolvesTrans(s: State, t: State, u: State)
    requires Tabled(s) && Tabled(t) && Tabled(u) && Evolves(s, t) && Evolves(t, u)
    ensures Evolves(s, u)
  {
  }

  lemma FaithfulLater(s: State, t: State, snapshot: Snapshot)
    requires Tabled(s) && Tabled(t) && Evolves(s, t) && Faithful(s, snapshot)
    ensures Faithful(t, snapshot)
  {
  }

  lemma ExtendedKeeps(s: State, routes: set<Route>, hashes: set<PathHash>, recorded: set<(PathHash, Info)>)
    requires Tabled(s) && Complete(s, recorded) && Growing(s)
    requires routes <= s.blobs.Keys && hashes <= s.infos.Keys && RoutesOf(s.infos, hashes) <= routes
    ensures var t := Extended(s, routes, hashes); Tabled(t) && Complete(t, recorded) && Growing(t) && Evolves(s, t) && t.leases == s.leases
  {
    var t := Extended(s, routes, hashes);
    hide HasEntries, Growing, PutOver, RoutesOf;
    forall h | h in t.paths[t.current] ensures HasEntries(t.entries[t.current], recorded, h) {
      NewestHasEntries(s, routes, hashes, recorded, h);
    }
    ExtendedGrows(s, routes, hashes);
  }

  lemma ExtendedGrows(s: State, routes: set<Route>, hashes: set<PathHash>)
    requires Tabled(s) && Growing(s) && routes <= s.blobs.Keys
    ensures Growing(Extended(s, routes, hashes))
  {
    var t := Extended(s, routes, hashes);
    assert s.entries[s.current].Keys <= t.entries[t.current].Keys && s.paths[s.current] <= t.paths[t.current];
    hide PutOver;
  }

  lemma NewestHasEntries(s: State, routes: set<Route>, hashes: set<PathHash>, recorded: set<(PathHash, Info)>, h: PathHash)
    requires Tabled(s) && Complete(s, recorded)
    requires routes <= s.blobs.Keys && hashes <= s.infos.Keys && RoutesOf(s.infos, hashes) <= routes
    requires h in hashes || h in s.paths[s.current]
    ensures HasEntries(PutOver(s.entries[s.current], s.blobs, routes), recorded, h)
  {
    if h in hashes {
      var p := (h, s.infos[h]);
      assert p in recorded && p.1.route in RoutesOf(s.infos, hashes) && p.1.narRoute in RoutesOf(s.infos, hashes);
    } else {
      var p :| p in recorded && p.0 == h && p.1.route in s.entries[s.current] && p.1.narRoute in s.entries[s.current];
    }
  }

  lemma PrunedRow(s: State, g: Generation)
    ensures g in Prune(s).entries <==> g in s.entries && (s.admitted == 0 || !Prunable(s, g))
    ensures g in Prune(s).paths <==> g in s.paths && (s.admitted == 0 || !Prunable(s, g))
    ensures g in Prune(s).entries ==> Prune(s).entries[g] == s.entries[g]
    ensures g in Prune(s).paths ==> Prune(s).paths[g] == s.paths[g]
  {
  }

  /** Pruning spares the current generation, the leased ones and everything from the newest
      admitted on. */
  lemma PruneKeeps(s: State, recorded: set<(PathHash, Info)>)
    requires Tabled(s) && Complete(s, recorded) && Growing(s)
    ensures var t := Prune(s); Tabled(t) && Complete(t, recorded) && Growing(t) && Evolves(s, t) && t.leases == s.leases
    ensures forall g :: g in s.entries && (g == s.current || g in s.leases || g >= s.admitted) ==> g in Prune(s).entries
  {
    PruneThins(s);
    hide Prune, Tabled, Complete, Growing, Evolves, Thinned;
    ThinnedTabled(s, Prune(s));
    ThinnedComplete(s, Prune(s), recorded);
    ThinnedGrowing(s, Prune(s));
  }

  /** `t` is `s` without some generations, none of them the current one. */
  ghost predicate Thinned(s: State, t: State) {
    && t == s.(entries := t.entries, paths := t.paths)
    && (forall g :: g in t.entries ==> g in s.entries && t.entries[g] == s.entries[g])
    && (forall g :: g in t.paths ==> g in s.paths && t.paths[g] == s.paths[g])
    && (forall g :: g in s.entries && g in s.paths ==> (g in t.entries <==> g in t.paths))
    && (s.current in s.entries ==> s.current in t.entries)
  }

  lemma PruneThins(s: State)
    ensures Thinned(s, Prune(s)) && Prune(s).leases == s.leases
    ensures forall g :: g in s.entries && (g == s.current || g in s.leases || g >= s.admitted) ==> g in Prune(s).entries
  {
    forall g
      ensures g in Prune(s).entries <==> g in s.entries && (s.admitted == 0 || !Prunable(s, g))
      ensures g in Prune(s).paths <==> g in s.paths && (s.admitted == 0 || !Prunable(s, g))
      ensures g in Prune(s).entries ==> Prune(s).entries[g] == s.entries[g]
      ensures g in Prune(s).paths ==> Prune(s).paths[g] == s.paths[g]
    {
      PrunedRow(s, g);
    }
  }

  lemma ThinnedTabled(s: State, t: State)
    requires Tabled(s) && Thinned(s, t)
    ensures Tabled(t) && Evolves(s, t)
  {
    forall g ensures g in t.entries <==> g in t.paths {
      assert g in s.entries.Keys <==> g in s.paths.Keys;
    }
  }

  lemma ThinnedComplete(s: State, t: State, recorded: set<(PathHash, Info)>)
    requires Complete(s, recorded) && Thinned(s, t)
    ensures Complete(t, recorded)
  {
    hide HasEntries;
  }

  lemma ThinnedGrowing(s: State, t: State)
    requires Growing(s) && Thinned(s, t)
    ensures Growing(t)
  {
  }

  lemma RecordKeeps(s: State, h: PathHash, info: Info, references: set<PathHash>, recorded: set<(PathHash, Info)>)
    requires Complete(s, recorded)
    ensures Complete(RecordInfo(s, h, info, references), recorded + {(h, info)})
  {
    var more := recorded + {(h, info)};
    forall g, k | g in s.entries && g in s.paths && k in s.paths[g] ensures HasEntries(s.entries[g], more, k) {
      var p :| p in recorded && p.0 == k && p.1.route in s.entries[g] && p.1.narRoute in s.entries[g];
      assert p in more;
    }
  }

  lemma StepKeeps(sys: Sys, step: Step)
    requires Inv(sys) && Allowed(sys, step)
    ensures Inv(Take(sys, step)) && Evolves(sys.state, Take(sys, step).state)
  {
    hide Complete, Growing, Counted, Faithful, Tabled, Evolves, Inv, Prune, RecordInfo, StageBlob, Extended;
    var s := sys.state;
    match step
    case Record(h, info, references) => RecordStepKeeps(sys, h, info, references);
    case Stage(route, blob) => BlobsKeep(sys, StageBlob(s, route, blob).blobs);
    case Drop(route) => BlobsKeep(sys, Discard(s, route).blobs);
    case Commit(hashes) => CommitKeeps(sys, RoutesOf(s.infos, hashes), hashes); BlobsKeep(sys, s.blobs);
    case CommitOnly(routes) => CommitKeeps(sys, routes, {}); BlobsKeep(sys, s.blobs);
    case Refresh => RefreshKeeps(sys);
    case Acquire(id, g) => AcquireKeeps(sys, id, g);
    case Release(id) => ReleaseKeeps(sys, id);
    case Admitted(g) => AdmittedKeeps(sys, g);
    case Crash => CrashKeeps(sys);
  }

  lemma RecordStepKeeps(sys: Sys, h: PathHash, info: Info, references: set<PathHash>)
    requires Inv(sys)
    ensures Inv(sys.(state := RecordInfo(sys.state, h, info, references), recorded := sys.recorded + {(h, info)}))
    ensures Evolves(sys.state, RecordInfo(sys.state, h, info, references))
  {
    RecordKeeps(sys.state, h, info, references, sys.recorded);
    hide Complete;
  }

  lemma BlobsKeep(sys: Sys, blobs: map<Route, Blob>)
    requires Inv(sys)
    ensures Inv(sys.(state := sys.state.(blobs := blobs))) && Evolves(sys.state, sys.state.(blobs := blobs))
    ensures sys.(state := sys.state.(blobs := sys.state.blobs)) == sys
    ensures RoutesOf(sys.state.infos, {}) == {}
    ensures forall route, blob :: StageBlob(sys.state, route, blob) == sys.state.(blobs := StageBlob(sys.state, route, blob).blobs)
  {
    hide HasEntries, Counted;
  }

  lemma RefreshKeeps(sys: Sys)
    requires Inv(sys)
    ensures Inv(sys.(snapshot := LoadGeneration(sys.state, sys.state.current))) && Evolves(sys.state, sys.state)
  {
    hide Complete, Growing, Counted;
  }

  lemma CommitKeeps(sys: Sys, routes: set<Route>, hashes: set<PathHash>)
    requires Inv(sys)
    ensures hashes <= sys.state.infos.Keys && routes <= sys.state.blobs.Keys && RoutesOf(sys.state.infos, hashes) <= routes ==>
              Inv(sys.(state := Extended(sys.state, routes, hashes))) && Evolves(sys.state, Extended(sys.state, routes, hashes))
  {
    hide HasEntries, Extended;
    if hashes <= sys.state.infos.Keys && routes <= sys.state.blobs.Keys && RoutesOf(sys.state.infos, hashes) <= routes {
      ExtendedKeeps(sys.state, routes, hashes, sys.recorded);
      FaithfulLater(sys.state, Extended(sys.state, routes, hashes), sys.snapshot);
    }
  }

  lemma AcquireKeeps(sys: Sys, id: HandleId, g: Generation)
    requires Inv(sys) && id !in sys.held
    ensures Inv(sys.(state := AcquireGeneration(sys.state, g), held := sys.held[id := AcquiredSnapshot(sys, g)]))
    ensures Evolves(sys.state, AcquireGeneration(sys.state, g))
  {
    hide HasEntries;
    TakeCounted(sys.state.leases, Leased(sys.held), id, g);
    assert Leased(sys.held[id := AcquiredSnapshot(sys, g)]) == Leased(sys.held)[id := g];
  }

  lemma ReleaseKeeps(sys: Sys, id: HandleId)
    requires Inv(sys) && id in sys.held
    ensures var t := ReleaseGeneration(sys.state, sys.held[id].generation);
      Inv(sys.(state := t, held := sys.held - {id})) && Evolves(sys.state, t)
  {
    hide HasEntries, Prune;
    var m := sys.state.(leases := Dropped(sys.state.leases, sys.held[id].generation));
    DropCounted(sys.state.leases, Leased(sys.held), id);
    assert Leased(sys.held - {id}) == Leased(sys.held) - {id};
    assert Complete(m, sys.recorded);
    PruneKeeps(m, sys.recorded);
    FaithfulLater(m, Prune(m), sys.snapshot);
    EvolvesTrans(sys.state, m, Prune(m));
  }

  lemma AdmittedKeeps(sys: Sys, g: Generation)
    requires Inv(sys)
    ensures Inv(sys.(state := MarkAdmitted(sys.state, g))) && Evolves(sys.state, MarkAdmitted(sys.state, g))
  {
    hide HasEntries, Prune;
    var m := sys.state.(admitted := if g > sys.state.admitted then g else sys.state.admitted);
    assert Complete(m, sys.recorded);
    PruneKeeps(m, sys.recorded);
    FaithfulLater(m, Prune(m), sys.snapshot);
    EvolvesTrans(sys.state, m, Prune(m));
  }

  lemma CrashKeeps(sys: Sys)
    requires Inv(sys)
    ensures Inv(Sys(Restart(sys.state), LoadGeneration(sys.state, sys.state.current), map[], sys.recorded))
    ensures Evolves(sys.state, Restart(sys.state))
  {
    hide HasEntries;
    var none: map<HandleId, Generation> := map[];
    assert Leased(map[]) == none;
    assert forall g :: Holders(none, g) == {};
  }

  // ---- Whole runs ----

  ghost predicate Run(sys: Sys, steps: seq<Step>)
    requires Inv(sys)
    decreases |steps|
  {
    steps == [] || (Allowed(sys, steps[0]) && (StepKeeps(sys, steps[0]); Run(Take(sys, steps[0]), steps[1..])))
  }

  ghost function End(sys: Sys, steps: seq<Step>): Sys
    requires Inv(sys) && Run(sys, steps)
    decreases |steps|
  {
    if steps == [] then sys else StepKeeps(sys, steps[0]); End(Take(sys, steps[0]), steps[1..])
  }

  /** Along every run each generation that still has rows lists only store paths whose narinfo and
      NAR are among its entries, later generations list at least the store paths of earlier ones,
      and a generation once made is never altered. */
  lemma {:induction false} RunGenerations(sys: Sys, steps: seq<Step>)
    requires Inv(sys) && Run(sys, steps)
    ensures var t := End(sys, steps);
      Inv(t) && Complete(t.state, t.recorded) && Growing(t.state) && Evolves(sys.state, t.state)
    decreases |steps|
  {
    if steps != [] {
      StepKeeps(sys, steps[0]);
      var next := Take(sys, steps[0]);
      RunGenerations(next, steps[1..]);
      EvolvesTrans(sys.state, next.state, End(next, steps[1..]).state);
    }
  }

  /** One step spares a generation that is current or leased after it. */
  lemma StepSpares(sys: Sys, step: Step, g: Generation)
    requires Inv(sys) && Allowed(sys, step) && g in sys.state.entries
    requires g == Take(sys, step).state.current || g in Take(sys, step).state.leases
    ensures g in Take(sys, step).state.entries && LoadGeneration(Take(sys, step).state, g) == LoadGeneration(sys.state, g)
  {
    hide Inv, Take;
    StepKeeps(sys, step);
    EntriesSpared(sys, step, g);
    InvTabled(sys);
    InvTabled(Take(sys, step));
    SameRows(sys.state, Take(sys, step).state, g);
  }

  lemma InvTabled(sys: Sys)
    requires Inv(sys)
    ensures Tabled(sys.state)
  {
  }

  lemma EntriesSpared(sys: Sys, step: Step, g: Generation)
    requires Inv(sys) && Allowed(sys, step) && g in sys.state.entries
    requires g == Take(sys, step).state.current || g in Take(sys, step).state.leases
    ensures g in Take(sys, step).state.entries
  {
    hide Inv, Prune, RecordInfo, CommitOverlay, CommitRoutes, LoadGeneration, StageBlob, Dropped, Taken;
    var s := sys.state;
    match step
    case Commit(hashes) => CommitSpares(sys, hashes, {}, g);
    case CommitOnly(routes) => CommitSpares(sys, {}, routes, g);
    case Stage(route, blob) => StageSpares(s, route, blob);
    case Record(h, info, references) => RecordSpares(s, h, info, references);
    case Release(id) => PruneSpares(s.(leases := Dropped(s.leases, sys.held[id].generation)), g);
    case Admitted(a) => PruneSpares(s.(admitted := if a > s.admitted then a else s.admitted), g);
    case _ =>
  }

  lemma CommitSpares(sys: Sys, hashes: set<PathHash>, routes: set<Route>, g: Generation)
    requires Inv(sys) && g in sys.state.entries
    ensures g in CommitOverlay(sys.state, hashes).0.entries && g in CommitRoutes(sys.state, routes).0.entries
  {
    hide Complete, Growing, Counted, PutOver, RoutesOf;
  }

  lemma StageSpares(s: State, route: Route, blob: Blob)
    ensures StageBlob(s, route, blob).entries == s.entries
  {
  }

  lemma RecordSpares(s: State, h: PathHash, info: Info, references: set<PathHash>)
    ensures RecordInfo(s, h, info, references).entries == s.entries
  {
  }

  lemma SameRows(s: State, t: State, g: Generation)
    requires Tabled(s) && Tabled(t) && Evolves(s, t) && g in s.entries && g in t.entries
    ensures LoadGeneration(t, g) == LoadGeneration(s, g)
  {
  }

  lemma PruneSpares(s: State, g: Generation)
    requires g in s.entries
    ensures g == s.current || g in s.leases ==> g in Prune(s).entries
    ensures Prune(s).current == s.current && Prune(s).leases == s.leases
  {
  }

  ghost predicate KeepsLease(steps: seq<Step>, id: HandleId) {
    forall i :: 0 <= i < |steps| ==> steps[i] != Release(id) && steps[i] != Crash
  }

  /** A leased generation stays exactly as it was, and the snapshot handed out with the lease
      stays what the tables hold, through commits, admissions, pruning and other releases. */
  lemma {:induction false} LeaseFreezes(sys: Sys, steps: seq<Step>, id: HandleId)
    requires Inv(sys) && Run(sys, steps) && id in sys.held && KeepsLease(steps, id)
    requires sys.held[id].generation in sys.state.entries
    ensures id in End(sys, steps).held && End(sys, steps).held[id] == sys.held[id]
    ensures sys.held[id].generation in End(sys, steps).state.entries
    ensures LoadGeneration(End(sys, steps).state, sys.held[id].generation) == LoadGeneration(sys.state, sys.held[id].generation)
    decreases |steps|
  {
    if steps != [] {
      StepKeeps(sys, steps[0]);
      assert steps[0] != Release(id) && steps[0] != Crash;
      LeaseFreezesStep(sys, steps[0], id);
      hide Inv, Take, LoadGeneration, Leased, Allowed;
      assert forall i :: 0 <= i < |steps[1..]| ==> steps[1..][i] == steps[i + 1];
      LeaseFreezes(Take(sys, steps[0]), steps[1..], id);
    }
  }

  lemma LeaseFreezesStep(sys: Sys, step: Step, id: HandleId)
    requires Inv(sys) && Allowed(sys, step) && id in sys.held && step != Release(id) && step != Crash
    requires sys.held[id].generation in sys.state.entries
    ensures var t := Take(sys, step);
      && id in t.held && t.held[id] == sys.held[id] && sys.held[id].generation in t.state.entries
      && LoadGeneration(t.state, sys.held[id].generation) == LoadGeneration(sys.state, sys.held[id].generation)
  {
    var t := Take(sys, step);
    assert id in t.held && t.held[id] == sys.held[id];
    StepKeeps(sys, step);
    hide Take;
    HeldIsCounted(t.state.leases, Leased(t.held), id);
    StepSpares(sys, step, sys.held[id].generation);
  }

  /** The snapshot of a new lease is what its generation holds. */
  lemma AcquireIsFaithful(sys: Sys, id: HandleId, g: Generation)
    requires Inv(sys) && id !in sys.held && g in sys.state.entries
    ensures Take(sys, Acquire(id, g)).held[id] == LoadGeneration(Take(sys, Acquire(id, g)).state, g)
  {
  }
}
