/** Which staged store paths may enter the overlay: those whose NAR is staged and whose references
    are the path itself, already in, or in the lower layer. */
module Eligibility {

  type PathHash = string

  datatype Info = Info(route: string, narRoute: string, metadataBytes: nat)

  /** The staging tables; a reference row may outlive its narinfo. */
  datatype Staged = Staged(infos: map<PathHash, Info>, refs: set<(PathHash, PathHash)>, nars: set<string>)

  ghost predicate Eligible(st: Staged, lower: iset<PathHash>, known: set<PathHash>, h: PathHash) {
    && h in st.infos && st.infos[h].narRoute in st.nars
    && forall r :: (h, r) in st.refs ==> r == h || r in known || r in lower
  }

  /** Nothing more in `scope` can be admitted. */
  ghost predicate Saturated(st: Staged, lower: iset<PathHash>, scope: set<PathHash>, known: set<PathHash>) {
    forall h :: h in scope && Eligible(st, lower, known, h) ==> h in known
  }

  /** `known` is the least saturated set above `base`: the full computation. */
  ghost predicate IsLeast(st: Staged, lower: iset<PathHash>, scope: set<PathHash>, base: set<PathHash>, known: set<PathHash>) {
    && base <= known && Saturated(st, lower, scope, known)
    && forall other :: base <= other && Saturated(st, lower, scope, other) ==> known <= other
  }

  lemma LeastUnique(st: Staged, lower: iset<PathHash>, scope: set<PathHash>, base: set<PathHash>, a: set<PathHash>, b: set<PathHash>)
    requires IsLeast(st, lower, scope, base, a) && IsLeast(st, lower, scope, base, b)
    ensures a == b
  {
  }

  /** Only paths in scope are added, and each of them is eligible in the end. */
  lemma LeastWithin(st: Staged, lower: iset<PathHash>, scope: set<PathHash>, base: set<PathHash>, known: set<PathHash>)
    requires IsLeast(st, lower, scope, base, known)
    ensures forall h :: h in known && h !in base ==> h in scope && Eligible(st, lower, known, h)
  {
    var other := set h | h in known && (h in base || (h in scope && Eligible(st, lower, known, h)));
    forall h | h in scope && Eligible(st, lower, other, h) ensures h in other {
      assert Eligible(st, lower, known, h);
    }
    assert known <= other;
  }

  // ---- What a change can affect ----

  /** Every path that refers into the set is in it. */
  ghost predicate Backward(st: Staged, area: set<PathHash>) {
    forall h, r :: (h, r) in st.refs && r in area ==> h in area
  }

  /** The paths that lead to `seed` by references: the recursive query. */
  ghost predicate IsAffected(st: Staged, seed: PathHash, area: set<PathHash>) {
    && seed in area && Backward(st, area)
    && forall other :: seed in other && Backward(st, other) ==> area <= other
  }

  /** Admitting inside a backward-closed area leaves what was saturated elsewhere saturated. */
  lemma AreaSuffices(st: Staged, lower: iset<PathHash>, area: set<PathHash>, scope: set<PathHash>, base: set<PathHash>, known: set<PathHash>)
    requires Backward(st, area) && IsLeast(st, lower, area, base, known)
    requires forall h :: h in scope && h !in area && Eligible(st, lower, base, h) ==> h in base
    ensures Saturated(st, lower, scope + area, known)
  {
    LeastWithin(st, lower, area, base, known);
    forall h | h in scope && h !in area && Eligible(st, lower, known, h) ensures h in known {
      assert Eligible(st, lower, base, h);
    }
  }

  /** A change that makes nothing outside `area` newly eligible. */
  ghost predicate ChangesOnly(was: Staged, now: Staged, area: set<PathHash>) {
    forall h :: h !in area && h in now.infos && now.infos[h].narRoute in now.nars ==>
      && h in was.infos && was.infos[h].narRoute in was.nars
      && forall r :: (h, r) in was.refs <==> (h, r) in now.refs
  }

  /** Recomputing the affected area alone gives the least fixed point over everything staged. */
  lemma IncrementalIsFull(was: Staged, now: Staged, lower: iset<PathHash>, area: set<PathHash>, committed: set<PathHash>, known: set<PathHash>)
    requires Saturated(was, lower, was.infos.Keys, committed)
    requires Backward(now, area) && ChangesOnly(was, now, area)
    requires IsLeast(now, lower, area, committed, known)
    ensures IsLeast(now, lower, now.infos.Keys, committed, known)
  {
    forall h | h in now.infos.Keys && h !in area && Eligible(now, lower, committed, h) ensures h in committed {
      assert Eligible(was, lower, committed, h);
    }
    AreaSuffices(now, lower, area, now.infos.Keys, committed, known);
    forall h | h in now.infos.Keys && Eligible(now, lower, known, h) ensures h in known {
      assert h in now.infos.Keys + area;
    }
    forall other | committed <= other && Saturated(now, lower, now.infos.Keys, other) ensures known <= other {
      assert Saturated(now, lower, area, other);
    }
  }

  // ---- The changes the repository reports ----

  /** `recordNarInfo`: the row replaces any with the same hash or the same route. */
  function RecordNarInfo(st: Staged, h: PathHash, info: Info, references: set<PathHash>): Staged {
    Staged((map g | g in st.infos && st.infos[g].route != info.route :: st.infos[g])[h := info],
           (set p | p in st.refs && p.0 != h) + (set r | r in references :: (h, r)),
           st.nars)
  }

  lemma NarInfoChange(st: Staged, h: PathHash, info: Info, references: set<PathHash>, area: set<PathHash>)
    requires h in area
    ensures ChangesOnly(st, RecordNarInfo(st, h, info, references), area)
  {
  }

  /** Staging the NAR at `route`. */
  function StageNar(st: Staged, route: string): Staged {
    st.(nars := st.nars + {route})
  }

  /** The narinfos that name the NAR. */
  function Sharing(st: Staged, route: string): set<PathHash> {
    set h | h in st.infos && st.infos[h].narRoute == route
  }

  lemma NarChange(st: Staged, route: string, area: set<PathHash>)
    requires Sharing(st, route) <= area
    ensures ChangesOnly(st, StageNar(st, route), area)
  {
  }

  /** The lookup by NAR route yields one narinfo, so with several the recomputation is right
      whatever the lower layer and the overlay hold exactly when all of them are affected. */
  lemma SharedNarIff(st: Staged, route: string, seed: PathHash, area: set<PathHash>)
    requires route !in st.nars && seed in Sharing(st, route)
    requires IsAffected(StageNar(st, route), seed, area)
    ensures (forall lower, committed, known ::
               Saturated(st, lower, st.infos.Keys, committed) && IsLeast(StageNar(st, route), lower, area, committed, known) ==>
               IsLeast(StageNar(st, route), lower, st.infos.Keys, committed, known))
       <==> Sharing(st, route) <= area
  {
    var now := StageNar(st, route);
    if Sharing(st, route) <= area {
      NarChange(st, route, area);
      forall lower, committed, known | Saturated(st, lower, st.infos.Keys, committed) && IsLeast(now, lower, area, committed, known)
        ensures IsLeast(now, lower, st.infos.Keys, committed, known)
      {
        IncrementalIsFull(st, now, lower, area, committed, known);
      }
    } else {
      var h :| h in Sharing(st, route) && h !in area;
      var lower := Below((g: PathHash) => true);
      var committed := set g | g in st.infos && st.infos[g].narRoute in st.nars;
      var known := committed + set g | g in area && g in now.infos && now.infos[g].narRoute in now.nars;
      assert Saturated(st, lower, st.infos.Keys, committed);
      forall other | committed <= other && Saturated(now, lower, area, other) ensures known <= other {
        assert forall g :: g in known && g !in committed ==> Eligible(now, lower, other, g);
      }
      assert IsLeast(now, lower, area, committed, known);
      assert Eligible(now, lower, known, h) && h !in known;
      assert !IsLeast(now, lower, st.infos.Keys, committed, known);
    }
  }

  /** Two paths naming one NAR, nothing referred to: recomputing from the first admits it alone,
      although the second is as eligible. */
  lemma SharedNarMissed(a: PathHash, b: PathHash, routeA: string, routeB: string, nar: string)
    requires a != b && routeA != routeB
    ensures var st := Staged(map[a := Info(routeA, nar, 0), b := Info(routeB, nar, 0)], {}, {});
      var now := StageNar(st, nar);
      && Saturated(st, iset{}, st.infos.Keys, {}) && IsAffected(now, a, {a}) && IsLeast(now, iset{}, {a}, {}, {a})
      && Eligible(now, iset{}, {a}, b) && !IsLeast(now, iset{}, now.infos.Keys, {}, {a})
  {
    var st := Staged(map[a := Info(routeA, nar, 0), b := Info(routeB, nar, 0)], {}, {});
    var now := StageNar(st, nar);
    assert forall other :: Saturated(now, iset{}, {a}, other) ==> a in other by {
      assert forall other :: Eligible(now, iset{}, other, a);
    }
    assert Eligible(now, iset{}, {a}, b) && b in now.infos.Keys && b !in {a};
  }

  /** Without any narinfo for the NAR there is nothing to recompute. */
  lemma UnnamedNar(st: Staged, route: string, lower: iset<PathHash>, committed: set<PathHash>)
    requires Saturated(st, lower, st.infos.Keys, committed) && Sharing(st, route) == {}
    ensures IsLeast(StageNar(st, route), lower, st.infos.Keys, committed, committed)
  {
    assert forall h :: h in st.infos ==> h !in Sharing(st, route);
    assert forall h :: Eligible(StageNar(st, route), lower, committed, h) ==> Eligible(st, lower, committed, h);
  }

  // ---- The computation ----

  /** The recursive query, evaluated with a queue; UNION keeps each hash once. */
  method Affected(st: Staged, seed: PathHash) returns (area: set<PathHash>)
    ensures IsAffected(st, seed, area)
  {
    area := {seed};
    var queue := [seed];
    ghost var all := {seed} + (set p | p in st.refs :: p.0);
    while queue != []
      invariant seed in area && area <= all && Demanded(st, seed, area)
      invariant Explored(st, area, queue)
      decreases |all - area|, |queue|
    {
      var found := set p | p in st.refs && p.1 == queue[0] && p.0 !in area :: p.0;
      var listed := Listed(found);
      Explore(st, seed, area, queue, found, listed);
      if found != {} {
        var f :| f in found;
        Fewer(all - (area + found), all - area, f);
      }
      hide Demanded, Explored;
      area := area + found;
      queue := queue[1..] + listed;
    }
  }

  /** Everything that must be in the area has been put there for a reason. */
  ghost predicate Demanded(st: Staged, seed: PathHash, area: set<PathHash>) {
    forall other :: seed in other && Backward(st, other) ==> area <= other
  }

  /** Of the area, only the queue still has its referrers to be looked up. */
  ghost predicate Explored(st: Staged, area: set<PathHash>, queue: seq<PathHash>) {
    && (forall i :: 0 <= i < |queue| ==> queue[i] in area)
    && (forall h, r :: (h, r) in st.refs && r in area && r !in queue ==> h in area)
  }

  lemma Explore(st: Staged, seed: PathHash, area: set<PathHash>, queue: seq<PathHash>, found: set<PathHash>, listed: seq<PathHash>)
    requires queue != [] && Demanded(st, seed, area) && Explored(st, area, queue)
    requires found == set p | p in st.refs && p.1 == queue[0] && p.0 !in area :: p.0
    requires forall h :: h in listed <==> h in found
    ensures Demanded(st, seed, area + found) && Explored(st, area + found, queue[1..] + listed)
  {
    forall h | (h, queue[0]) in st.refs ensures h in area + found {
      assert (h, queue[0]).0 == h;
    }
    forall r | r in queue && r !in queue[1..] ensures r == queue[0] {
    }
    var rest := queue[1..] + listed;
    forall h, r | (h, r) in st.refs && r in area + found && r !in rest ensures h in area + found {
      assert r !in listed && r !in queue[1..];
    }
  }

  lemma Fewer<T>(a: set<T>, b: set<T>, x: T)
    requires a <= b && x in b && x !in a
    ensures |a| < |b|
  {
    FewerOrSame(a, b - {x});
  }

  lemma FewerOrSame<T>(a: set<T>, b: set<T>)
    requires a <= b
    ensures |a| <= |b|
  {
    if a != {} {
      var x :| x in a;
      FewerOrSame(a - {x}, b - {x});
    }
  }

  method Listed(hs: set<PathHash>) returns (listed: seq<PathHash>)
    ensures forall h :: h in listed <==> h in hs
    ensures |listed| == |hs|
  {
    listed := [];
    var rest := hs;
    while rest != {}
      invariant rest <= hs && |listed| + |rest| == |hs|
      invariant forall h :: h in listed <==> h in hs - rest
      decreases |rest|
    {
      var h :| h in rest;
      rest := rest - {h};
      listed := listed + [h];
    }
  }

  /** The scan of one candidate's references, stopping at the first missing one. */
  method ReferencesClosed(st: Staged, lower: PathHash -> bool, known: set<PathHash>, h: PathHash) returns (closed: bool)
    ensures closed <==> forall r :: (h, r) in st.refs ==> r == h || r in known || lower(r)
  {
    var references := Listed(set p | p in st.refs && p.0 == h :: p.1);
    assert forall r :: (h, r) in st.refs <==> r in references;
    closed := true;
    var i := 0;
    while i < |references|
      invariant 0 <= i <= |references|
      invariant forall j :: 0 <= j < i ==> references[j] == h || references[j] in known || lower(references[j])
    {
      var r := references[i];
      if r != h && r !in known && !lower(r) {
        assert (h, r) in st.refs;
        return false;
      }
      i := i + 1;
    }
  }

  function Members(hs: seq<PathHash>): set<PathHash> {
    set h | h in hs
  }

  /** The lower layer's answers as a set. */
  ghost function Below(lower: PathHash -> bool): iset<PathHash> {
    iset h | lower(h)
  }

  /** Every saturated set above `committed` has all of `admitted`. */
  ghost predicate Forced(st: Staged, lower: iset<PathHash>, scope: set<PathHash>, committed: set<PathHash>, admitted: set<PathHash>) {
    forall other :: committed <= other && Saturated(st, lower, scope, other) ==> admitted <= other
  }

  ghost predicate Settled(st: Staged, lower: iset<PathHash>, known: set<PathHash>, h: PathHash) {
    Eligible(st, lower, known, h) ==> h in known
  }

  lemma AdmitOne(st: Staged, lower: iset<PathHash>, scope: set<PathHash>, committed: set<PathHash>, admitted: set<PathHash>, h: PathHash)
    requires h in scope && Eligible(st, lower, committed + admitted, h)
    requires Forced(st, lower, scope, committed, admitted)
    ensures Forced(st, lower, scope, committed, admitted + {h})
  {
    forall other | committed <= other && Saturated(st, lower, scope, other) ensures h in other {
      assert Eligible(st, lower, other, h);
    }
  }
}
