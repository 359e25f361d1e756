/** Reference counts kept in a map, with no entry at zero, against the handles given out. */
module LeaseCounts {

  type HandleId = nat

  function Taken<K>(counts: map<K, nat>, k: K): map<K, nat> {
    counts[k := (if k in counts then counts[k] else 0) + 1]
  }

  function Dropped<K>(counts: map<K, nat>, k: K): map<K, nat> {
    if k in counts && counts[k] > 1 then counts[k := counts[k] - 1] else counts - {k}
  }

  ghost function Holders<K>(held: map<HandleId, K>, k: K): set<HandleId> {
    set id | id in held && held[id] == k
  }

  /** The counts are those of the handles not yet released. */
  ghost predicate Counted<K(!new)>(counts: map<K, nat>, held: map<HandleId, K>) {
    forall k :: if k in counts then counts[k] == |Holders(held, k)| && counts[k] > 0 else Holders(held, k) == {}
  }

  lemma TakeCounted<K(!new)>(counts: map<K, nat>, held: map<HandleId, K>, id: HandleId, k: K)
    requires Counted(counts, held) && id !in held
    ensures Counted(Taken(counts, k), held[id := k])
  {
    assert Holders(held[id := k], k) == Holders(held, k) + {id};
    forall j | j != k ensures Holders(held[id := k], j) == Holders(held, j) {
    }
  }

  lemma DropCounted<K(!new)>(counts: map<K, nat>, held: map<HandleId, K>, id: HandleId)
    requires Counted(counts, held) && id in held
    ensures Counted(Dropped(counts, held[id]), held - {id})
  {
    var k := held[id];
    assert id in Holders(held, k);
    assert Holders(held - {id}, k) == Holders(held, k) - {id};
    assert |Holders(held - {id}, k)| == |Holders(held, k)| - 1;
    assert |Holders(held - {id}, k)| == 0 ==> Holders(held - {id}, k) == {};
    forall j | j != k ensures Holders(held - {id}, j) == Holders(held, j) {
    }
  }

  /** What a handle refers to is counted. */
  lemma HeldIsCounted<K(!new)>(counts: map<K, nat>, held: map<HandleId, K>, id: HandleId)
    requires Counted(counts, held) && id in held
    ensures held[id] in counts
  {
    assert id in Holders(held, held[id]);
  }
}
