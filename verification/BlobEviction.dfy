/** Eviction takes the shortest sufficient prefix of the least recently used blobs. */
module BlobEviction {
  import opened Manifests
  import opened Sums
  import opened BlobModel
  import opened BlobInvariant

  /** The candidates nobody is reading. */
  ghost function Victims(leases: map<Hash, nat>, hs: seq<Hash>): (vs: seq<Hash>)
    ensures forall i :: 0 <= i < |vs| ==> vs[i] in hs && vs[i] !in leases
    ensures forall h :: h in hs && h !in leases ==> h in vs
  {
    if hs == [] then [] else (if hs[0] in leases then [] else [hs[0]]) + Victims(leases, hs[1..])
  }

  lemma {:induction false} VictimsOrdered(catalog: map<Hash, Row>, leases: map<Hash, nat>, hs: seq<Hash>)
    requires Ordered(catalog, hs)
    ensures Ordered(catalog, Victims(leases, hs))
  {
    if hs != [] {
      VictimsOrdered(catalog, leases, hs[1..]);
      var rest := Victims(leases, hs[1..]);
      forall i | 0 <= i < |rest| ensures Before(catalog, hs[0], rest[i]) {
        var j :| 0 <= j < |hs[1..]| && hs[1..][j] == rest[i];
        assert hs[j + 1] == rest[i];
      }
    }
  }

  ghost function Freed(catalog: map<Hash, Row>, hs: seq<Hash>): nat {
    if hs == [] then 0 else (if hs[0] in catalog then catalog[hs[0]].size else 0) + Freed(catalog, hs[1..])
  }

  /** `t` is `s` after deleting the first `k` of `vs`, and fewer would not have been enough. */
  ghost predicate Evicted(s: State, t: State, sizes: map<Hash, Row>, vs: seq<Hash>, k: nat, bytes: nat) {
    && k <= |vs|
    && t == s.(catalog := t.catalog)
    && Used(t) + Freed(sizes, vs[..k]) == Used(s)
    && (forall h :: Ready(t, h) <==> Ready(s, h) && h !in vs[..k])
    && (forall h :: Ready(t, h) ==> t.catalog[h] == s.catalog[h])
    && (k > 0 ==> Used(s) + bytes > s.capacity + Freed(sizes, vs[..k - 1]))
    && (Fits(t, bytes) || k == |vs|)
  }

  /** Each entry is a candidate of the recorded size, listed once. */
  ghost predicate Listed(s: State, sizes: map<Hash, Row>, hs: seq<Hash>) {
    && (forall i :: 0 <= i < |hs| ==> Candidate(s, hs[i]) && hs[i] in sizes && sizes[hs[i]].size == s.catalog[hs[i]].size)
    && (forall i, j :: 0 <= i < j < |hs| ==> hs[i] != hs[j])
  }

  lemma ListedAfterDelete(s: State, sizes: map<Hash, Row>, hs: seq<Hash>, stuck: set<Hash>)
    requires hs != [] && Listed(s, sizes, hs) && hs[0] !in s.leases
    ensures Listed(Delete(s, hs[0], stuck), sizes, hs[1..])
    ensures Used(Delete(s, hs[0], stuck)) + sizes[hs[0]].size == Used(s)
    ensures Delete(s, hs[0], stuck).owners == s.owners
  {
    var t := Delete(s, hs[0], stuck);
    DeleteFrees(s, hs[0], stuck);
    DeleteTrims(s, hs[0], stuck);
    hide Used, Delete;
    forall i | 0 <= i < |hs[1..]| ensures Candidate(t, hs[1..][i]) && t.catalog[hs[1..][i]] == s.catalog[hs[1..][i]] {
      assert hs[1..][i] == hs[i + 1];
    }
  }

  lemma {:induction false} MakeSpaceEvicts(s: State, sizes: map<Hash, Row>, hs: seq<Hash>, bytes: nat, stuck: set<Hash>) returns (k: nat)
    requires Listed(s, sizes, hs)
    ensures Evicted(s, MakeSpace(s, hs, bytes, stuck), sizes, Victims(s.leases, hs), k, bytes)
    decreases |hs|
  {
    hide Used, Delete, Evicted, Fits, Freed;
    var vs := Victims(s.leases, hs);
    k := 0;
    if Fits(s, bytes) || hs == [] {
      EvictedNone(s, sizes, vs, bytes);
    } else if hs[0] in s.leases {
      k := MakeSpaceEvicts(s, sizes, hs[1..], bytes, stuck);
      assert vs == Victims(s.leases, hs[1..]);
    } else {
      assert vs == [hs[0]] + Victims(s.leases, hs[1..]);
      var t := Delete(s, hs[0], stuck);
      ListedAfterDelete(s, sizes, hs, stuck);
      DeleteTrims(s, hs[0], stuck);
      var j := MakeSpaceEvicts(t, sizes, hs[1..], bytes, stuck);
      k := j + 1;
      EvictedCons(s, t, MakeSpace(t, hs[1..], bytes, stuck), sizes, hs[0], Victims(s.leases, hs[1..]), j, bytes);
    }
  }

  lemma EvictedNone(s: State, sizes: map<Hash, Row>, vs: seq<Hash>, bytes: nat)
    requires Fits(s, bytes) || vs == []
    ensures Evicted(s, s, sizes, vs, 0, bytes)
  {
    hide Used;
    assert vs[..0] == [];
  }

  lemma EvictedCons(s: State, t: State, u: State, sizes: map<Hash, Row>, h: Hash, vs: seq<Hash>, j: nat, bytes: nat)
    requires h in sizes && Used(t) + sizes[h].size == Used(s) && t == s.(catalog := t.catalog)
    requires !Ready(t, h) && (forall g :: g != h ==> (Ready(t, g) <==> Ready(s, g)))
    requires forall g :: Ready(t, g) ==> g in s.catalog && t.catalog[g] == s.catalog[g]
    requires Evicted(t, u, sizes, vs, j, bytes) && !Fits(s, bytes)
    ensures Evicted(s, u, sizes, [h] + vs, j + 1, bytes)
  {
    hide Used;
    var ws := [h] + vs;
    assert ws[..j + 1] == [h] + vs[..j];
    assert ws[..j + 1][1..] == vs[..j];
    assert Freed(sizes, ws[..j + 1]) == sizes[h].size + Freed(sizes, vs[..j]);
    if j > 0 {
      assert ws[..j] == [h] + vs[..j - 1];
      assert ws[..j][1..] == vs[..j - 1];
    }
  }

  lemma {:induction false} FreedGrows(catalog: map<Hash, Row>, hs: seq<Hash>, i: nat, j: nat)
    requires i <= j <= |hs|
    ensures Freed(catalog, hs[..i]) <= Freed(catalog, hs[..j])
    decreases i
  {
    if i > 0 {
      assert hs[..i][1..] == hs[1..][..i - 1] && hs[..j][1..] == hs[1..][..j - 1];
      FreedGrows(catalog, hs[1..], i - 1, j - 1);
    }
  }

  /** A reservation succeeds exactly when the unread candidates together free enough, and then it
      deletes the first `k` of them, least recently used first, for the least sufficient `k`. */
  lemma ReserveEvicts(s: State, token: Token, bytes: nat, order: seq<Hash>, stuck: set<Hash>) returns (k: nat)
    requires EvictionOrder(s, order) && bytes <= s.capacity
    ensures var vs := Victims(s.leases, order);
      var (t, ok) := Reserve(s, token, bytes, order, stuck);
      && Ordered(s.catalog, vs)
      && (ok <==> Used(s) + bytes <= s.capacity + Freed(s.catalog, vs))
      && (!ok ==> t == s)
      && (ok ==> k <= |vs| && Used(s) + bytes <= s.capacity + Freed(s.catalog, vs[..k]))
      && (ok ==> forall j :: 0 <= j < k ==> Used(s) + bytes > s.capacity + Freed(s.catalog, vs[..j]))
      && (ok ==> forall h :: Ready(t, h) <==> Ready(s, h) && h !in vs[..k])
      && (ok ==> (forall h :: Ready(t, h) ==> t.catalog[h] == s.catalog[h]))
      && (ok ==> t == s.(catalog := t.catalog, reservations := s.reservations[token := bytes]))
  {
    var vs := Victims(s.leases, order);
    var t := MakeSpace(s, order, bytes, stuck);
    k := MakeSpaceEvicts(s, s.catalog, order, bytes, stuck);
    VictimsOrdered(s.catalog, s.leases, order);
    hide MakeSpace, Used, Ordered;
    if Fits(t, bytes) {
      FreedGrows(s.catalog, vs, k, |vs|);
      assert vs[..|vs|] == vs;
      forall j | 0 <= j < k ensures Used(s) + bytes > s.capacity + Freed(s.catalog, vs[..j]) {
        FreedGrows(s.catalog, vs, j, k - 1);
      }
    } else {
      assert vs[..k] == vs;
    }
  }

  /** The order of the query is determined: recency, then hash. */
  lemma {:induction false} EvictionOrderUnique(s: State, a: seq<Hash>, b: seq<Hash>)
    requires EvictionOrder(s, a) && EvictionOrder(s, b)
    ensures a == b
  {
    assert forall h :: Among(a, h) <==> Candidate(s, h);
    assert forall h :: Among(b, h) <==> Candidate(s, h);
    OrderedUnique(s.catalog, a, b);
  }

  lemma {:induction false} OrderedUnique(catalog: map<Hash, Row>, a: seq<Hash>, b: seq<Hash>)
    requires Ordered(catalog, a) && Ordered(catalog, b)
    requires forall h :: Among(a, h) <==> Among(b, h)
    ensures a == b
    decreases |a|
  {
    if a == [] || b == [] {
      assert a != [] ==> Among(a, a[0]);
      assert b != [] ==> Among(b, b[0]);
    } else {
      SameFirst(catalog, a, b);
      forall h ensures Among(a[1..], h) <==> Among(b[1..], h) {
        AmongTail(catalog, a, h);
        AmongTail(catalog, b, h);
      }
      assert Ordered(catalog, a[1..]) && Ordered(catalog, b[1..]);
      OrderedUnique(catalog, a[1..], b[1..]);
      assert a == [a[0]] + a[1..] && b == [b[0]] + b[1..];
    }
  }

  lemma SameFirst(catalog: map<Hash, Row>, a: seq<Hash>, b: seq<Hash>)
    requires a != [] && b != [] && Ordered(catalog, a) && Ordered(catalog, b)
    requires forall h :: Among(a, h) <==> Among(b, h)
    ensures a[0] == b[0]
  {
    assert Among(a, a[0]) && Among(b, b[0]);
    var j :| 0 <= j < |b| && b[j] == a[0];
    var i :| 0 <= i < |a| && a[i] == b[0];
  }

  lemma AmongTail(catalog: map<Hash, Row>, a: seq<Hash>, h: Hash)
    requires a != [] && Ordered(catalog, a)
    ensures Among(a[1..], h) <==> Among(a, h) && h != a[0]
  {
    if Among(a[1..], h) {
      var i :| 0 <= i < |a[1..]| && a[1..][i] == h;
      assert a[i + 1] == h && Before(catalog, a[0], a[i + 1]);
    }
    if Among(a, h) && h != a[0] {
      var i :| 0 <= i < |a| && a[i] == h;
      assert a[1..][i - 1] == h;
    }
  }

  /** Making space keeps what a step must keep. */
  lemma ReserveKeeps(s: State, token: Token, bytes: nat, order: seq<Hash>, stuck: set<Hash>)
    requires Valid(s) && token !in s.reservations && EvictionOrder(s, order)
    ensures Valid(Reserve(s, token, bytes, order, stuck).0)
    ensures RoutesHeld(s) ==> RoutesHeld(Reserve(s, token, bytes, order, stuck).0)
    ensures Accounted(s) ==> Accounted(Reserve(s, token, bytes, order, stuck).0)
  {
    var (t, ok) := Reserve(s, token, bytes, order, stuck);
    if ok {
      var m := MakeSpace(s, order, bytes, stuck);
      var k := MakeSpaceEvicts(s, s.catalog, order, bytes, stuck);
      hide MakeSpace, Used, Valid, Accounted, RoutesHeld;
      VictimsUnheld(s, order);
      EvictedTrims(s, m, Victims(s.leases, order), k, bytes);
      TrimmedKeeps(s, m);
      ReservedKeeps(m, token, bytes);
    }
  }

  lemma VictimsUnheld(s: State, order: seq<Hash>)
    requires forall i :: 0 <= i < |order| ==> Candidate(s, order[i])
    ensures forall i :: 0 <= i < |Victims(s.leases, order)| ==>
              !Owned(s.owners, Victims(s.leases, order)[i]) && Victims(s.leases, order)[i] !in s.leases
  {
    hide Owned;
  }

  lemma EvictedTrims(s: State, t: State, vs: seq<Hash>, k: nat, bytes: nat)
    requires forall i :: 0 <= i < |vs| ==> !Owned(s.owners, vs[i]) && vs[i] !in s.leases
    requires Evicted(s, t, s.catalog, vs, k, bytes)
    ensures Trimmed(s, t)
  {
    hide Used, Owned, Freed, Fits;
    var gone := vs[..k];
    assert forall i :: 0 <= i < |gone| ==> gone[i] == vs[i];
  }

  lemma ReservedKeeps(s: State, token: Token, bytes: nat)
    requires Valid(s) && token !in s.reservations && Fits(s, bytes)
    ensures var t := s.(reservations := s.reservations[token := bytes]);
      Valid(t) && (RoutesHeld(s) ==> RoutesHeld(t)) && (Accounted(s) ==> Accounted(t))
  {
    hide ReadySizes, Owned;
    Sums.SumInsert(s.reservations, token, bytes);
  }
}
