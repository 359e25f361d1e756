/** The repository's overlay methods over its tables, and the eligibility model that drives them. */
module OverlayRepository {
  import opened Manifests
  import opened Sums
  import opened LeaseCounts
  import opened Eligibility
  import R = EligibilityRuns
  import M = OverlayModel
  import opened OverlayModel

  /** What `acquireGeneration` hands out. */
  class GenerationLease {
    const generation: Generation
    var released: bool

    constructor (generation: Generation)
      ensures this.generation == generation && !released
    {
      this.generation := generation;
      released := false;
    }
  }

  /** The variables of one `#recompute`, which live on while it waits for the lower layer. */
  class Recomputation {
    const change: R.Change
    const captured: Staged
    const committed: set<PathHash>
    const candidates: seq<PathHash>
    ghost const area: set<PathHash>
    var admitted: set<PathHash>
    var remaining: seq<PathHash>
    var progressed: bool

    constructor (change: R.Change, captured: Staged, ghost area: set<PathHash>, committed: set<PathHash>, candidates: seq<PathHash>)
      ensures AsJob() == R.NewJob(change, captured, area, committed, candidates)
    {
      this.change, this.captured, this.area, this.committed, this.candidates := change, captured, area, committed, candidates;
      admitted, remaining, progressed := {}, candidates, false;
    }

    ghost function AsJob(): R.Job
      reads this
    {
      R.Job(change, captured, area, committed, candidates, admitted, remaining, progressed)
    }

    predicate Unfinished()
      reads this
      ensures Unfinished() == R.CanScan(AsJob())
    {
      remaining != [] || (progressed && candidates != [])
    }

    /** One candidate: the NAR is looked up in the tables as they are now, the references are those
        captured. */
    method Scan(tables: OverlayTables, lower: PathHash -> bool)
      requires Unfinished()
      requires forall i :: 0 <= i < |remaining| ==> remaining[i] in captured.infos
      requires forall i :: 0 <= i < |candidates| ==> candidates[i] in captured.infos
      modifies this
      ensures AsJob() == R.Scanned(Below(lower), StagedOf(tables.Tables()), old(AsJob()))
      ensures forall i :: 0 <= i < |remaining| ==> remaining[i] in captured.infos
    {
      if remaining == [] {
        remaining, progressed := candidates, false;
        return;
      }
      var h := remaining[0];
      remaining := remaining[1..];
      if h in committed || h in admitted || captured.infos[h].narRoute !in tables.blobs {
        return;
      }
      var closed := ReferencesClosed(captured, lower, committed + admitted, h);
      ClosedBelow(captured, lower, committed + admitted, h);
      if closed {
        admitted, progressed := admitted + {h}, true;
      }
    }
  }

  lemma ClosedBelow(st: Staged, lower: PathHash -> bool, known: set<PathHash>, h: PathHash)
    ensures R.ClosedIn(st, Below(lower), known, h) <==> forall r :: (h, r) in st.refs ==> r == h || r in known || lower(r)
  {
  }

  class OverlayTables {
    var infos: map<PathHash, Info>
    var refs: set<(PathHash, PathHash)>
    var blobs: map<Route, Blob>
    var entries: map<Generation, map<Route, Blob>>
    var paths: map<Generation, set<PathHash>>
    var current: Generation
    var leases: map<Generation, nat>
    var admitted: Generation

    function Tables(): State
      reads this
    {
      State(infos, refs, blobs, entries, paths, current, leases, admitted)
    }

    constructor ()
      ensures Tables() == EMPTY_OVERLAY && Tabled(Tables())
    {
      infos, refs, blobs, entries, paths, current, leases, admitted := map[], {}, map[], map[0 := map[]], map[0 := {}], 0, map[], 0;
    }

    method RecordNarInfo(h: PathHash, info: Info, references: seq<PathHash>)
      modifies this`infos, this`refs
      ensures Tables() == M.RecordInfo(old(Tables()), h, info, Members(references))
    {
      infos := (map g | g in infos && infos[g].route != info.route :: infos[g])[h := info];
      ghost var rows := infos;
      var kept := set p | p in refs && p.0 != h;
      refs := kept;
      var i := 0;
      while i < |references|
        invariant 0 <= i <= |references|
        invariant infos == rows
        invariant refs == kept + set r | r in references[..i] :: (h, r)
      {
        refs := refs + {(h, references[i])};
        assert references[..i + 1] == references[..i] + [references[i]];
        i := i + 1;
      }
      assert references[..i] == references;
      assert (set r | r in references :: (h, r)) == (set r | r in Members(references) :: (h, r));
      assert refs == M.RecordInfo(old(Tables()), h, info, Members(references)).refs;
      assert infos == M.RecordInfo(old(Tables()), h, info, Members(references)).infos;
    }

    method StageBlob(route: Route, blob: Blob)
      modifies this`blobs
      ensures Tables() == M.StageBlob(old(Tables()), route, blob)
    {
      if route !in blobs {
        blobs := blobs[route := blob];
      }
    }

    /** `commitOverlay`: the rows of the new generation are copied, then those of each store path
        put over them; anything missing rolls the transaction back. */
    method CommitOverlay(hashes: seq<PathHash>) returns (ok: bool)
      requires Tabled(Tables())
      modifies this
      ensures Tabled(Tables())
      ensures (Tables(), ok) == M.CommitOverlay(old(Tables()), Members(hashes))
    {
      if hashes == [] {
        return true;
      }
      assert hashes[0] in Members(hashes);
      var rows := NewRows(infos, blobs, entries[current], hashes);
      hide PutOver, RoutesOf;
      if rows.None? {
        return false;
      }
      entries, paths, current := entries[current + 1 := rows.value], paths[current + 1 := paths[current] + Members(hashes)], current + 1;
      ok := true;
    }

    method AcquireGeneration(g: Generation) returns (lease: GenerationLease)
      modifies this`leases
      ensures fresh(lease) && lease.generation == g && !lease.released
      ensures Tables() == M.AcquireGeneration(old(Tables()), g)
    {
      leases := leases[g := (if g in leases then leases[g] else 0) + 1];
      lease := new GenerationLease(g);
    }

    /** Releasing again does nothing. */
    method Release(lease: GenerationLease)
      modifies this, lease
      ensures lease.released
      ensures Tables() == if old(lease.released) then old(Tables()) else M.ReleaseGeneration(old(Tables()), lease.generation)
    {
      if lease.released {
        return;
      }
      lease.released := true;
      var next: int := if lease.generation in leases then leases[lease.generation] else 1;
      next := next - 1;
      if next > 0 {
        leases := leases[lease.generation := next];
      } else {
        leases := leases - {lease.generation};
      }
      PruneAdmitted();
    }

    method MarkAdmitted(g: Generation)
      modifies this
      ensures Tables() == M.MarkAdmitted(old(Tables()), g)
    {
      if g > admitted {
        admitted := g;
      }
      PruneAdmitted();
    }

    /** `#pruneAdmitted`: the generations with rows below the newest admitted one, one by one. */
    method PruneAdmitted()
      modifies this`entries, this`paths
      ensures Tables() == M.Prune(old(Tables()))
    {
      if admitted == 0 {
        return;
      }
      entries, paths := PrunedRows(Tables());
    }

    // ---- The eligibility model ----

    /** What the overlay lists now. */
    function Known(): set<PathHash>
      reads this
      requires Tabled(Tables())
    {
      paths[current]
    }

    /** `affectedCandidates`: `None` where more rows than allowed are affected. */
    method AffectedCandidates(changed: string, maxVisited: nat) returns (r: Option<seq<PathHash>>, ghost area: set<PathHash>)
      ensures R.AreaOf(StagedOf(Tables()), R.ChangeOf(changed), area)
      ensures r.None? <==> |area * infos.Keys| > maxVisited
      ensures r.Some? ==> Members(r.value) == area * infos.Keys && |r.value| == |area * infos.Keys|
    {
      var st := StagedOf(Tables());
      var seed := changed;
      match R.ChangeOf(changed) {
        case Path(h) => seed := h;
        case Nar(route) =>
          var sharing := Sharing(st, route);
          if sharing == {} {
            return Some([]), {};
          }
          seed :| seed in sharing;
      }
      assert R.IsSeed(st, R.ChangeOf(changed), seed);
      var affected := Affected(st, seed);
      area := affected;
      hide IsAffected, R.IsSeed;
      if |affected * infos.Keys| > maxVisited {
        return None, area;
      }
      var listed := Listed(affected * infos.Keys);
      assert Members(listed) == affected * infos.Keys;
      r := Some(listed);
    }

    /** `#recompute` up to its loop: capture the candidates and what is committed.  `None` is an
        exception at a ceiling. */
    method BeginRecompute(changed: string, maxVisited: nat, maxMetadata: nat) returns (r: Option<Recomputation>, ghost area: set<PathHash>)
      requires Tabled(Tables())
      ensures R.AreaOf(StagedOf(Tables()), R.ChangeOf(changed), area)
      ensures r.None? <==> |area * infos.Keys| > maxVisited || Metadata(infos, area * infos.Keys) > maxMetadata
      ensures r.Some? ==> fresh(r.value) && R.IsCandidates(StagedOf(Tables()), area, r.value.candidates)
      ensures r.Some? ==> r.value.AsJob() == R.NewJob(R.ChangeOf(changed), StagedOf(Tables()), area, Known(), r.value.candidates)
    {
      hide Metadata, R.AreaOf;
      var found;
      found, area := AffectedCandidates(changed, maxVisited);
      if found.None? {
        return None, area;
      }
      var candidates := found.value;
      assert forall i :: 0 <= i < |candidates| ==> candidates[i] in Members(candidates);
      var fits := MetadataFits(infos, candidates, maxMetadata);
      if !fits {
        return None, area;
      }
      assert forall h :: h in candidates <==> h in Members(candidates);
      var job := new Recomputation(R.ChangeOf(changed), StagedOf(Tables()), area, paths[current], candidates);
      r := Some(job);
    }

    /** `#recompute` after its loop: commit what was admitted, from the rows as they are now.
        `None` is an exception, which changes nothing. */
    method FinishRecompute(job: Recomputation) returns (r: Option<bool>)
      requires Tabled(Tables()) && !job.Unfinished()
      modifies this
      ensures Tabled(Tables()) && StagedOf(Tables()) == old(StagedOf(Tables()))
      ensures r.Some? <==> R.Committable(old(StagedOf(Tables())), job.admitted)
      ensures r.Some? ==> r.value == (job.admitted != {}) && Known() == old(Known()) + job.admitted
      ensures r.Some? ==> Tables() == M.CommitOverlay(old(Tables()), job.admitted).0
      ensures r.None? || r == Some(false) ==> Tables() == old(Tables())
    {
      CommitMeaning(Tables(), job.admitted);
      hide M.CommitOverlay, Tabled, Members, R.Committable;
      if job.admitted == {} {
        assert Known() + job.admitted == Known();
        return Some(false);
      }
      var listed := Listed(job.admitted);
      MembersOf(listed, job.admitted);
      var ok := CommitOverlay(listed);
      r := if ok then Some(true) else None;
    }

    /** The whole of `#recompute` where nothing else runs while it waits: the paths listed become the
        least fixed point over the affected area. */
    method Recompute(changed: string, lower: PathHash -> bool, maxVisited: nat, maxMetadata: nat)
      returns (r: Option<bool>, ghost area: set<PathHash>)
      requires Tabled(Tables())
      modifies this
      ensures Tabled(Tables()) && StagedOf(Tables()) == old(StagedOf(Tables()))
      ensures r.Some? ==> R.Recomputed(Below(lower), old(StagedOf(Tables())), R.ChangeOf(changed), old(Known()), Known())
      ensures r.Some? ==> Tables() == M.CommitOverlay(old(Tables()), Known() - old(Known())).0
      ensures r == Some(false) || r.None? ==> Tables() == old(Tables())
      ensures r.Some? ==> |area * infos.Keys| <= maxVisited && Metadata(infos, area * infos.Keys) <= maxMetadata
      ensures r.None? ==>
        || |area * infos.Keys| > maxVisited || Metadata(infos, area * infos.Keys) > maxMetadata
        || exists h :: h in area && h in infos && (infos[h].route !in blobs || infos[h].narRoute !in blobs)
    {
      hide R.Recomputed, Metadata, M.CommitOverlay, Below, Tabled, R.AreaOf, R.Sensible, R.Committable, R.IsCandidates;
      var begun;
      begun, area := BeginRecompute(changed, maxVisited, maxMetadata);
      if begun.None? {
        return None, area;
      }
      var job := begun.value;
      ghost var known := Known();
      RunPasses(job, lower);
      R.DoneRecomputes(Below(lower), job.AsJob());
      AdmittedWithin(Below(lower), job.AsJob());
      NotCommittable(Tables(), job.admitted, area);
      r := FinishRecompute(job);
      assert known + job.admitted - known == job.admitted;
    }

    /** The passes, one candidate after another. */
    method RunPasses(job: Recomputation, lower: PathHash -> bool)
      requires job.captured == StagedOf(Tables()) && R.IsCandidates(job.captured, job.area, job.candidates)
      requires job.AsJob() == R.NewJob(job.change, job.captured, job.area, job.committed, job.candidates)
      modifies job
      ensures !job.Unfinished() && R.Sensible(Below(lower), job.AsJob())
    {
      hide R.Sensible, Below, R.Scanned;
      R.NewJobSensible(Below(lower), job.change, job.captured, job.area, job.committed, job.candidates);
      ghost var before := Tables();
      while job.Unfinished()
        invariant Tables() == before && R.Sensible(Below(lower), job.AsJob())
        invariant forall i :: 0 <= i < |job.remaining| ==> job.remaining[i] in job.captured.infos
        decreases R.Work(job.AsJob()).0, R.Work(job.AsJob()).1, R.Work(job.AsJob()).2
      {
        R.ScanSensible(Below(lower), job.AsJob());
        job.Scan(this, lower);
      }
    }

    /** `reconcile` recomputes for every staged path; where no call throws, nothing eligible is
        left out, whatever the overlay held before. */
    method Reconcile(hashes: seq<PathHash>, lower: PathHash -> bool, maxVisited: nat, maxMetadata: nat) returns (r: Option<bool>)
      requires Tabled(Tables()) && infos.Keys <= Members(hashes)
      requires forall i :: 0 <= i < |hashes| ==> R.ChangeOf(hashes[i]) == R.Path(hashes[i])
      modifies this
      ensures Tabled(Tables()) && StagedOf(Tables()) == old(StagedOf(Tables()))
      ensures r.Some? ==> Saturated(StagedOf(Tables()), Below(lower), infos.Keys, Known())
      ensures r == Some(false) ==> Tables() == old(Tables())
    {
      hide R.Pending, Tabled, R.Recomputed, M.CommitOverlay, Metadata, R.ChangeOf, Saturated, Below;
      var changed := false;
      var i := 0;
      ghost var queue := R.Paths(hashes);
      ghost var st := StagedOf(Tables());
      R.ReconcileCovers(Below(lower), st, Known(), hashes);
      assert queue[0..] == queue;
      while i < |hashes|
        invariant 0 <= i <= |hashes|
        invariant Tabled(Tables()) && StagedOf(Tables()) == st
        invariant R.Pending(Below(lower), R.Sys(st, Known(), queue[i..], None, []))
        invariant !changed ==> Tables() == old(Tables())
      {
        ghost var known := Known();
        ghost var area;
        var step;
        step, area := Recompute(hashes[i], lower, maxVisited, maxMetadata);
        if step.None? {
          return None;
        }
        NextInQueue(Below(lower), st, known, Known(), hashes, i);
        changed := changed || step.value;
        i := i + 1;
      }
      assert queue[i..] == [];
      NothingPending(Below(lower), st, Known());
      r := Some(changed);
    }
  }

  // ---- Supporting facts ----

  lemma NextInQueue(lower: iset<PathHash>, st: Staged, known: set<PathHash>, after: set<PathHash>, hashes: seq<PathHash>, i: nat)
    requires i < |hashes| && R.Pending(lower, R.Sys(st, known, R.Paths(hashes)[i..], None, []))
    requires R.Recomputed(lower, st, R.Path(hashes[i]), known, after)
    ensures R.Pending(lower, R.Sys(st, after, R.Paths(hashes)[i + 1..], None, []))
  {
    hide R.Pending;
    var queue := R.Paths(hashes);
    assert queue[i..][0] == R.Path(hashes[i]) && queue[i..][1..] == queue[i + 1..];
    R.RecomputedPending(lower, st, known, queue[i..], after);
  }

  lemma NothingPending(lower: iset<PathHash>, st: Staged, known: set<PathHash>)
    requires R.Pending(lower, R.Sys(st, known, [], None, []))
    ensures Saturated(st, lower, st.infos.Keys, known)
  {
    hide Eligible;
  }

  /** The rows the new generation starts with, and those of each store path over them. */
  method NewRows(infos: map<PathHash, Info>, blobs: map<Route, Blob>, base: map<Route, Blob>, hashes: seq<PathHash>) returns (r: Option<map<Route, Blob>>)
    ensures r.Some? <==> Members(hashes) <= infos.Keys && RoutesOf(infos, Members(hashes)) <= blobs.Keys
    ensures r.Some? ==> r.value == PutOver(base, blobs, RoutesOf(infos, Members(hashes)))
  {
    var rows := base;
    var i := 0;
    while i < |hashes|
      invariant 0 <= i <= |hashes|
      invariant Members(hashes[..i]) <= infos.Keys
      invariant RoutesOf(infos, Members(hashes[..i])) <= blobs.Keys
      invariant rows == PutOver(base, blobs, RoutesOf(infos, Members(hashes[..i])))
    {
      RoutesOfOne(infos, hashes, i);
      if hashes[i] !in infos {
        return None;
      }
      var info := infos[hashes[i]];
      if info.route !in blobs || info.narRoute !in blobs {
        return None;
      }
      PutOverMore(base, blobs, RoutesOf(infos, Members(hashes[..i])), info.route, info.narRoute);
      hide PutOver, RoutesOf, Members;
      rows := rows[info.route := blobs[info.route]][info.narRoute := blobs[info.narRoute]];
      i := i + 1;
    }
    assert hashes[..i] == hashes;
    r := Some(rows);
  }

  lemma PutOverMore(base: map<Route, Blob>, blobs: map<Route, Blob>, routes: set<Route>, a: Route, b: Route)
    requires a in blobs && b in blobs
    ensures PutOver(base, blobs, routes + {a, b}) == PutOver(base, blobs, routes)[a := blobs[a]][b := blobs[b]]
  {
  }

  lemma RoutesOfOne(infos: map<PathHash, Info>, hashes: seq<PathHash>, i: nat)
    requires i < |hashes|
    ensures Members(hashes[..i + 1]) == Members(hashes[..i]) + {hashes[i]}
    ensures hashes[i] in Members(hashes)
    ensures hashes[i] in infos ==>
      && RoutesOf(infos, Members(hashes[..i + 1])) == RoutesOf(infos, Members(hashes[..i])) + {infos[hashes[i]].route, infos[hashes[i]].narRoute}
      && infos[hashes[i]].route in RoutesOf(infos, Members(hashes)) && infos[hashes[i]].narRoute in RoutesOf(infos, Members(hashes))
  {
    assert hashes[..i + 1] == hashes[..i] + [hashes[i]];
    assert Members(hashes[..i + 1]) == Members(hashes[..i]) + {hashes[i]};
  }

  /** The rows left after deleting the releasable generations one by one. */
  method PrunedRows(s: State) returns (entries: map<Generation, map<Route, Blob>>, paths: map<Generation, set<PathHash>>)
    requires s.admitted != 0
    ensures entries == Prune(s).entries && paths == Prune(s).paths
  {
    hide Prune;
    entries, paths := s.entries, s.paths;
    var retained := {s.current} + s.leases.Keys;
    var generations: set<Generation> := set g | g in entries && entries[g] != map[] && g < s.admitted;
    var rest := generations;
    while rest != {}
      invariant rest <= generations
      invariant entries == s.entries - (generations - rest - retained)
      invariant paths == s.paths - (generations - rest - retained)
      decreases |rest|
    {
      var g :| g in rest;
      GoneMore(s.entries, generations, rest, retained, g);
      GoneMore(s.paths, generations, rest, retained, g);
      rest := rest - {g};
      if g !in retained {
        entries, paths := entries - {g}, paths - {g};
      }
    }
    PrunedWithout(s, generations, retained);
  }

  lemma GoneMore<V>(m: map<Generation, V>, generations: set<Generation>, rest: set<Generation>, retained: set<Generation>, g: Generation)
    requires g in rest && rest <= generations
    ensures m - (generations - (rest - {g}) - retained) ==
            if g in retained then m - (generations - rest - retained) else m - (generations - rest - retained) - {g}
  {
    var gone := generations - rest - retained;
    assert generations - (rest - {g}) - retained == if g in retained then gone else gone + {g};
    assert m - (gone + {g}) == m - gone - {g};
  }

  lemma PrunedWithout(s: State, generations: set<Generation>, retained: set<Generation>)
    requires s.admitted != 0 && retained == {s.current} + s.leases.Keys
    requires generations == set g | g in s.entries && s.entries[g] != map[] && g < s.admitted
    ensures s.entries - (generations - retained) == Prune(s).entries
    ensures s.paths - (generations - retained) == Prune(s).paths
  {
    assert forall g :: Prunable(s, g) <==> g in generations - retained;
  }

  ghost function MetadataRows(infos: map<PathHash, Info>, hs: set<PathHash>): map<PathHash, nat> {
    map h | h in hs && h in infos :: infos[h].metadataBytes
  }

  ghost function Metadata(infos: map<PathHash, Info>, hs: set<PathHash>): nat {
    SumOf(MetadataRows(infos, hs))
  }

  lemma MetadataNone(infos: map<PathHash, Info>)
    ensures Metadata(infos, Members([])) == 0
  {
    SumEmpty(MetadataRows(infos, Members([])));
  }

  lemma MetadataMore(infos: map<PathHash, Info>, hs: set<PathHash>, h: PathHash)
    requires h in infos && h !in hs
    ensures Metadata(infos, hs + {h}) == Metadata(infos, hs) + infos[h].metadataBytes
  {
    SumInsert(MetadataRows(infos, hs), h, infos[h].metadataBytes);
    assert MetadataRows(infos, hs + {h}) == MetadataRows(infos, hs)[h := infos[h].metadataBytes];
  }

  lemma {:induction false} MetadataGrows(infos: map<PathHash, Info>, hs: set<PathHash>, more: set<PathHash>)
    requires hs <= more && more <= infos.Keys
    ensures Metadata(infos, hs) <= Metadata(infos, more)
    decreases |more - hs|
  {
    if hs != more {
      var h :| h in more && h !in hs;
      MetadataMore(infos, hs, h);
      Fewer(more - (hs + {h}), more - hs, h);
      MetadataGrows(infos, hs + {h}, more);
    }
  }

  /** The metadata scan stops at the first candidate over the ceiling. */
  method MetadataFits(infos: map<PathHash, Info>, candidates: seq<PathHash>, ceiling: nat) returns (fits: bool)
    requires forall i :: 0 <= i < |candidates| ==> candidates[i] in infos
    requires |Members(candidates)| == |candidates|
    ensures fits <==> Metadata(infos, Members(candidates)) <= ceiling
  {
    var total := 0;
    var i := 0;
    MetadataNone(infos);
    while i < |candidates|
      invariant 0 <= i <= |candidates|
      invariant total == Metadata(infos, Members(candidates[..i])) <= ceiling
    {
      ListedOnce(candidates, i);
      MetadataMore(infos, Members(candidates[..i]), candidates[i]);
      MetadataGrows(infos, Members(candidates[..i + 1]), Members(candidates));
      total := total + infos[candidates[i]].metadataBytes;
      if total > ceiling {
        return false;
      }
      i := i + 1;
    }
    assert candidates[..i] == candidates;
    fits := true;
  }

  /** A list as long as its set of members repeats nothing. */
  lemma ListedOnce(hs: seq<PathHash>, i: nat)
    requires |Members(hs)| == |hs| && i < |hs|
    ensures Members(hs[..i + 1]) == Members(hs[..i]) + {hs[i]} && hs[i] !in Members(hs[..i])
    ensures Members(hs[..i + 1]) <= Members(hs)
  {
    assert hs[..i + 1] == hs[..i] + [hs[i]];
    if hs[i] in hs[..i] {
      var rest := hs[..i] + hs[i + 1..];
      assert Members(rest) == Members(hs) by {
        assert hs == hs[..i] + [hs[i]] + hs[i + 1..];
      }
      MembersAtMost(rest);
    }
  }

  lemma {:induction false} MembersAtMost(hs: seq<PathHash>)
    ensures |Members(hs)| <= |hs|
  {
    if hs != [] {
      MembersAtMost(hs[1..]);
      assert Members(hs) == Members(hs[1..]) + {hs[0]} by {
        assert hs == [hs[0]] + hs[1..];
      }
    }
  }

  lemma AdmittedWithin(lower: iset<PathHash>, j: R.Job)
    requires R.Sensible(lower, j) && R.IsCandidates(j.captured, j.area, j.candidates)
    ensures j.admitted !! j.committed && forall h :: h in j.admitted ==> h in j.area && h in j.captured.infos
  {
    hide Forced, Settled;
  }

  /** Whether the commit throws, in terms of the rows. */
  lemma CommitMeaning(s: State, admitted: set<PathHash>)
    requires Tabled(s)
    ensures var (t, ok) := M.CommitOverlay(s, admitted);
      && (ok <==> R.Committable(StagedOf(s), admitted)) && (!ok ==> t == s) && (admitted == {} ==> t == s)
      && StagedOf(t) == StagedOf(s) && Tabled(t) && t.paths[t.current] == s.paths[s.current] + if ok then admitted else {}
  {
    var (t, ok) := M.CommitOverlay(s, admitted);
    if R.Committable(StagedOf(s), admitted) {
      assert admitted <= s.infos.Keys && RoutesOf(s.infos, admitted) <= s.blobs.Keys;
    } else {
      var h :| h in admitted && !(h in s.infos && s.infos[h].route in s.blobs && s.infos[h].narRoute in s.blobs);
      if h in s.infos {
        assert s.infos[h].route in RoutesOf(s.infos, admitted) && s.infos[h].narRoute in RoutesOf(s.infos, admitted);
      }
    }
  }

  lemma NotCommittable(s: State, admitted: set<PathHash>, area: set<PathHash>)
    requires forall h :: h in admitted ==> h in area && h in s.infos
    ensures !R.Committable(StagedOf(s), admitted) ==>
      exists h :: h in area && h in s.infos && (s.infos[h].route !in s.blobs || s.infos[h].narRoute !in s.blobs)
  {
  }

  lemma MembersOf(listed: seq<PathHash>, hs: set<PathHash>)
    requires forall h :: h in listed <==> h in hs
    ensures Members(listed) == hs
  {
  }
}
