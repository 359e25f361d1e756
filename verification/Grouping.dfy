/** Cutting a sequence into consecutive groups of a fixed size, the last one possibly shorter.
    File chunking, manifest grouping and authorization packing all cut this way. */
module Grouping {

  function Groups<T>(s: seq<T>, k: nat): (r: seq<seq<T>>)
    requires k > 0
    decreases |s|
  {
    if s == [] then []
    else if |s| <= k then [s]
    else [s[..k]] + Groups(s[k..], k)
  }

  function Concat<T>(ss: seq<seq<T>>): seq<T> {
    if ss == [] then [] else ss[0] + Concat(ss[1..])
  }

  lemma {:induction false} ConcatAppend<T>(a: seq<seq<T>>, b: seq<seq<T>>)
    ensures Concat(a + b) == Concat(a) + Concat(b)
  {
    if a == [] {
      assert a + b == b;
    } else {
      ConcatAppend(a[1..], b);
      assert (a + b)[1..] == a[1..] + b;
    }
  }

  lemma ConcatSnoc<T>(a: seq<seq<T>>, x: seq<T>)
    ensures Concat(a + [x]) == Concat(a) + x
  {
    ConcatAppend(a, [x]);
    assert [x][1..] == [];
    assert Concat([x]) == x;
  }

  /** Nothing is lost, duplicated or reordered. */
  lemma {:induction false} ConcatGroups<T>(s: seq<T>, k: nat)
    requires k > 0
    ensures Concat(Groups(s, k)) == s
    decreases |s|
  {
    if s != [] && |s| > k {
      ConcatGroups(s[k..], k);
      var g := Groups(s, k);
      assert g[1..] == Groups(s[k..], k);
      assert s == s[..k] + s[k..];
    } else if s != [] {
      assert [s][1..] == [];
      assert Concat([s]) == s + [];
    }
  }

  /** Every group is full but the last, which is not empty; there are ceil(n / k) of them. */
  lemma {:induction false} GroupSizes<T>(s: seq<T>, k: nat)
    requires k > 0
    ensures forall i :: 0 <= i < |Groups(s, k)| ==> 0 < |Groups(s, k)[i]| <= k
    ensures forall i :: 0 <= i < |Groups(s, k)| - 1 ==> |Groups(s, k)[i]| == k
    ensures |Groups(s, k)| == (|s| + k - 1) / k
    decreases |s|
  {
    if |s| > k {
      GroupSizes(s[k..], k);
      CeilStep(|s|, k);
    } else if s != [] {
      CeilOne(|s|, k);
    } else {
      DivUnique(k - 1, k, 0);
    }
  }

  lemma DivUnique(a: int, k: int, q: int)
    requires k > 0 && q * k <= a < q * k + k
    ensures a / k == q
  {
    var d := a / k;
    assert d * k <= a < d * k + k;
    if d < q {
      MulMono(d + 1, q, k);
    } else if d > q {
      MulMono(q + 1, d, k);
    }
  }

  lemma MulMono(a: int, b: int, k: int)
    requires a <= b && k >= 0
    ensures a * k <= b * k
  {
  }

  lemma CeilStep(n: nat, k: nat)
    requires n > k > 0
    ensures (n + k - 1) / k == 1 + (n - k + k - 1) / k
  {
    var d := (n - 1) / k;
    assert (d + 1) * k == d * k + k;
    DivUnique(n + k - 1, k, d + 1);
  }

  lemma CeilOne(n: nat, k: nat)
    requires 0 < n <= k
    ensures (n + k - 1) / k == 1
  {
    DivUnique(n + k - 1, k, 1);
  }

  /** Grouping a list with more than k >= 2 elements makes it strictly shorter. */
  lemma GroupsShrink<T>(s: seq<T>, k: nat)
    requires 2 <= k < |s|
    ensures 2 <= |Groups(s, k)| < |s|
  {
    GroupSizes(s, k);
    var n, q := |s|, (|s| + k - 1) / k;
    assert q * k <= n + k - 1 < q * k + k;
    if q <= 1 { MulMono(q, 1, k); }
    MulTail(n, k);
    if q >= n { MulMono(n, q, k); }
  }

  lemma MulTail(n: nat, k: nat)
    requires n >= 2 && k >= 2
    ensures n * k > n + k - 1
  {
    assert n * k == (n - 1) * (k - 1) + n + k - 1;
    assert (n - 1) * (k - 1) > 0;
  }

  /** A list of full groups followed by more elements groups independently. */
  lemma {:induction false} GroupsAppend<T>(a: seq<T>, b: seq<T>, k: nat)
    requires k > 0 && |a| % k == 0
    ensures Groups(a + b, k) == Groups(a, k) + Groups(b, k)
    decreases |a|
  {
    if a == [] {
      assert a + b == b;
    } else {
      if |a| < k { DivUnique(|a|, k, 0); }
      ModStep(|a|, k);
      if b == [] {
        assert a + b == a;
      } else {
        GroupsAppend(a[k..], b, k);
        assert (a + b)[..k] == a[..k] && (a + b)[k..] == a[k..] + b;
        if |a| == k { assert a[..k] == a && a[k..] == []; }
      }
    }
  }

  lemma ModStep(n: nat, k: nat)
    requires n >= k > 0 && n % k == 0
    ensures (n - k) % k == 0
  {
    var q := n / k;
    assert (q - 1) * k == q * k - k;
    DivUnique(n - k, k, q - 1);
  }

  lemma ModAdd(n: nat, k: nat)
    requires k > 0 && n % k == 0
    ensures (n + k) % k == 0
  {
    var q := n / k;
    assert (q + 1) * k == q * k + k;
    DivUnique(n + k, k, q + 1);
  }

  /** A number of full groups. */
  predicate Whole(n: nat, k: nat) {
    k > 0 && n % k == 0
  }

  lemma WholeStart(k: nat)
    requires k > 0
    ensures Whole(0, k)
  {
  }

  lemma WholeNext(n: nat, k: nat)
    requires Whole(n, k)
    ensures Whole(n + k, k)
  {
    ModAdd(n, k);
  }

  /** A non-empty cut with full groups before the last is the cut `Groups` makes. */
  lemma {:induction false} CutIsGroups<T>(gs: seq<seq<T>>, k: nat)
    requires k > 0
    requires forall i :: 0 <= i < |gs| ==> 0 < |gs[i]| <= k
    requires forall i :: 0 <= i < |gs| - 1 ==> |gs[i]| == k
    ensures Groups(Concat(gs), k) == gs
  {
    if gs == [] {
    } else if |gs| == 1 {
      assert gs[1..] == [];
      assert Concat(gs) == gs[0];
      assert gs == [gs[0]];
    } else {
      CutIsGroups(gs[1..], k);
      var s := Concat(gs);
      assert Concat(gs[1..]) == gs[1] + Concat(gs[2..]) by { assert gs[1..][1..] == gs[2..]; }
      assert s[..k] == gs[0] && s[k..] == Concat(gs[1..]);
      assert gs == [gs[0]] + gs[1..];
    }
  }

  /** The next group after a list of full ones. */
  lemma NextSnoc<T>(rows: seq<T>, done: nat, i: nat, k: nat)
    requires done < i <= |rows| && i - done <= k && done % k == 0
    ensures Groups(rows[..i], k) == Groups(rows[..done], k) + [rows[done..i]]
  {
    assert rows[..i] == rows[..done] + rows[done..i];
    GroupsAppend(rows[..done], rows[done..i], k);
  }

  /** A full group, or what is left at the end, is one of the groups of the whole. */
  lemma GroupAmong<T>(rows: seq<T>, done: nat, i: nat, k: nat)
    requires done < i <= |rows| && i - done <= k && done % k == 0 && (i - done == k || i == |rows|)
    ensures rows[done..i] in Groups(rows, k)
  {
    NextSnoc(rows, done, i, k);
    var first := Groups(rows[..i], k);
    assert first[|first| - 1] == rows[done..i];
    if i < |rows| {
      ModAdd(done, k);
      assert rows == rows[..i] + rows[i..];
      GroupsAppend(rows[..i], rows[i..], k);
    } else {
      assert rows[..i] == rows;
    }
  }

  /** After full groups comes the group of what is next. */
  lemma GroupAt<T>(rows: seq<T>, done: nat, k: nat)
    requires k > 0 && done < |rows| && done % k == 0
    ensures |Groups(rows[..done], k)| < |Groups(rows, k)|
    ensures Groups(rows, k)[|Groups(rows[..done], k)|] == rows[done..if done + k < |rows| then done + k else |rows|]
    ensures forall i :: 0 <= i < |Groups(rows[..done], k)| ==> Groups(rows, k)[i] == Groups(rows[..done], k)[i]
  {
    var rest := rows[done..];
    assert rows == rows[..done] + rest;
    GroupsAppend(rows[..done], rest, k);
    assert Groups(rest, k)[0] == if |rest| <= k then rest else rest[..k];
  }

  /** Every element is in one of the groups. */
  lemma {:induction false} InSomeGroup<T>(s: seq<T>, k: nat, x: nat) returns (i: nat)
    requires k > 0 && x < |s|
    ensures i < |Groups(s, k)| && s[x] in Groups(s, k)[i]
    decreases |s|
  {
    i := 0;
    if |s| > k && x >= k {
      i := InSomeGroup(s[k..], k, x - k);
      i := i + 1;
    } else if |s| > k {
      assert s[..k][x] == s[x];
    }
  }
}
