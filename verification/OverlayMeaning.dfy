/** What committing, pruning and staging do to the overlay, row by row. */
module OverlayMeaning {
  import opened LeaseCounts
  import opened Eligibility
  import opened EligibilityRuns
  import opened OverlayModel

  /** A route of one of these paths' narinfos or NARs. */
  ghost predicate RouteOf(s: State, hashes: set<PathHash>, route: Route) {
    exists h :: h in hashes && h in s.infos && (s.infos[h].route == route || s.infos[h].narRoute == route)
  }

  ghost predicate AllStaged(s: State, hashes: set<PathHash>) {
    forall h :: h in hashes ==> h in s.infos && s.infos[h].route in s.blobs && s.infos[h].narRoute in s.blobs
  }

  lemma RoutesOfIs(s: State, hashes: set<PathHash>, route: Route)
    ensures route in RoutesOf(s.infos, hashes) <==> RouteOf(s, hashes, route)
  {
    if RouteOf(s, hashes, route) {
      var h :| h in hashes && h in s.infos && (s.infos[h].route == route || s.infos[h].narRoute == route);
    }
  }

  /** `commitOverlay`: nothing for no paths; nothing where a narinfo or a body is missing; otherwise
      one more generation, which has the staged body under each route of the listed paths, the
      entries it had under all others, and those paths besides the ones it had. */
  lemma CommitMeans(s: State, hashes: set<PathHash>)
    requires Tabled(s)
    ensures var (t, ok) := CommitOverlay(s, hashes); var g := s.current + 1;
      && (ok <==> AllStaged(s, hashes))
      && (!ok || hashes == {} ==> t == s)
      && (ok && hashes != {} ==>
           && t.current == g && g !in s.entries && t.entries.Keys == s.entries.Keys + {g} && t.paths.Keys == s.paths.Keys + {g}
           && (forall j :: j in s.entries ==> t.entries[j] == s.entries[j] && t.paths[j] == s.paths[j])
           && t.paths[g] == s.paths[s.current] + hashes
           && (forall r :: r in t.entries[g] <==> r in s.entries[s.current] || RouteOf(s, hashes, r))
           && (forall r :: r in t.entries[g] ==>
                t.entries[g][r] == if RouteOf(s, hashes, r) && r in s.blobs then s.blobs[r] else if r in s.entries[s.current] then s.entries[s.current][r] else Blob("", 0, ""))
           && t == s.(entries := t.entries, paths := t.paths, current := g))
  {
    hide RoutesOf, RouteOf;
    forall r ensures r in RoutesOf(s.infos, hashes) <==> RouteOf(s, hashes, r) {
      RoutesOfIs(s, hashes, r);
    }
    RoutesStaged(s, hashes);
  }

  lemma RoutesStaged(s: State, hashes: set<PathHash>)
    ensures hashes <= s.infos.Keys && RoutesOf(s.infos, hashes) <= s.blobs.Keys <==> AllStaged(s, hashes)
  {
    if hashes <= s.infos.Keys && RoutesOf(s.infos, hashes) <= s.blobs.Keys {
      forall h | h in hashes ensures h in s.infos && s.infos[h].route in s.blobs && s.infos[h].narRoute in s.blobs {
        assert s.infos[h].route in RoutesOf(s.infos, hashes) && s.infos[h].narRoute in RoutesOf(s.infos, hashes);
      }
    }
  }

  /** `#pruneAdmitted`: a generation with entries goes exactly when it is older than the newest
      admitted one, not the current one and not leased; all others stay as they are. */
  lemma PruneMeans(s: State)
    requires Tabled(s)
    ensures var t := Prune(s);
      && t == s.(entries := t.entries, paths := t.paths) && t.entries.Keys == t.paths.Keys
      && (forall g :: g in t.entries <==>
            g in s.entries && (|s.entries[g]| == 0 || g >= s.admitted || g == s.current || g in s.leases))
      && forall g :: g in t.entries ==> t.entries[g] == s.entries[g] && t.paths[g] == s.paths[g]
  {
    forall g | g in s.entries ensures s.entries[g] == map[] <==> |s.entries[g]| == 0 {
    }
  }

  /** `recordNarInfo`: the row stands for its path and its route, and a path has the references
      recorded last. */
  lemma RecordMeans(s: State, h: PathHash, info: Info, references: set<PathHash>)
    ensures var t := RecordInfo(s, h, info, references);
      && h in t.infos && t.infos[h] == info
      && (forall g :: g != h ==> (g in t.infos <==> g in s.infos && s.infos[g].route != info.route) && (g in t.infos ==> t.infos[g] == s.infos[g]))
      && (forall g, r :: (g, r) in t.refs <==> if g == h then r in references else (g, r) in s.refs)
      && t == s.(infos := t.infos, refs := t.refs)
  {
    var t := RecordInfo(s, h, info, references);
    forall g, r ensures (g, r) in t.refs <==> if g == h then r in references else (g, r) in s.refs {
    }
  }

  /** A change under `nar/` is a NAR's route; any other begins with the 32 characters of its path. */
  lemma ChangeMeans(hash: string, rest: string)
    ensures ChangeOf("nar/" + rest) == Nar("nar/" + rest)
    ensures |hash| == 32 && '/' !in hash ==> ChangeOf(hash + rest) == Path(hash)
  {
    if |hash| == 32 && '/' !in hash {
      assert (hash + rest)[..32] == hash;
      assert (hash + rest)[3] == hash[3] && hash[3] in hash;
    }
    assert NAR_PREFIX <= "nar/" + rest;
  }
}
