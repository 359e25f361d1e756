/** The sum of a finite map's values, as SQL's SUM over a table column. */
module Sums {

  ghost function SumOf<K>(m: map<K, nat>): nat {
    if m.Keys == {} then 0
    else
      var k :| k in m.Keys;
      m[k] + SumOf(m - {k})
  }

  /** The sum does not depend on the order of the rows. */
  lemma {:induction false} SumRemove<K>(m: map<K, nat>, k: K)
    requires k in m
    ensures SumOf(m) == m[k] + SumOf(m - {k})
    decreases |m|
  {
    assert m.Keys != {};
    var j :| j in m.Keys && SumOf(m) == m[j] + SumOf(m - {j});
    if j != k {
      assert |m - {j}| < |m| by { SmallerWithout(m, j); }
      assert |m - {k}| < |m| by { SmallerWithout(m, k); }
      SumRemove(m - {j}, k);
      SumRemove(m - {k}, j);
      assert (m - {j}) - {k} == (m - {k}) - {j};
    }
  }

  lemma SmallerWithout<K>(m: map<K, nat>, k: K)
    requires k in m
    ensures |m - {k}| < |m|
  {
    assert (m - {k}).Keys == m.Keys - {k};
    assert |m.Keys - {k}| == |m.Keys| - 1;
  }

  lemma SumInsert<K>(m: map<K, nat>, k: K, v: nat)
    requires k !in m
    ensures SumOf(m[k := v]) == SumOf(m) + v
  {
    var n := m[k := v];
    SumRemove(n, k);
    assert n - {k} == m;
  }

  lemma SumReplace<K>(m: map<K, nat>, k: K, v: nat)
    requires k in m
    ensures SumOf(m[k := v]) + m[k] == SumOf(m) + v
  {
    SumRemove(m, k);
    SumRemove(m[k := v], k);
    assert m[k := v] - {k} == m - {k};
  }

  lemma SumEmpty<K>(m: map<K, nat>)
    requires m.Keys == {}
    ensures SumOf(m) == 0
  {
  }

  /** Fewer rows have no larger sum. */
  lemma {:induction false} SumWithin<K>(m: map<K, nat>, n: map<K, nat>)
    requires forall k :: k in m ==> k in n && m[k] == n[k]
    ensures SumOf(m) <= SumOf(n) && |m| <= |n|
    decreases |m|
  {
    if m.Keys == {} {
      SumEmpty(m);
    } else {
      var k :| k in m;
      SmallerWithout(m, k);
      SumWithin(m - {k}, n - {k});
      SumRemove(m, k);
      SumRemove(n, k);
      assert (m - {k}).Keys == m.Keys - {k} && (n - {k}).Keys == n.Keys - {k};
    }
  }

  /** Two tables without a common row add up. */
  lemma {:induction false} SumUnion<K>(m: map<K, nat>, n: map<K, nat>)
    requires m.Keys !! n.Keys
    ensures SumOf(m + n) == SumOf(m) + SumOf(n)
    decreases |n|
  {
    hide SumOf;
    if n.Keys == {} {
      SumEmpty(n);
      assert m + n == m;
    } else {
      var k :| k in n;
      SmallerWithout(n, k);
      WithoutRow(m, n, k);
      SumUnion(m, n - {k});
      SumRemove(n, k);
      SumRemove(m + n, k);
    }
  }

  lemma WithoutRow<K>(m: map<K, nat>, n: map<K, nat>, k: K)
    requires m.Keys !! n.Keys && k in n
    ensures k in m + n && (m + n)[k] == n[k] && m.Keys !! (n - {k}).Keys
    ensures (m + n) - {k} == m + (n - {k})
  {
    var a, b := (m + n) - {k}, m + (n - {k});
    assert (n - {k}).Keys == n.Keys - {k};
    assert a.Keys == b.Keys;
  }
}
