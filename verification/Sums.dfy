/** Sums over the values of a map: SQL's sum() over a keyed table. */
module Sums {

  /** The sum of a map's values: an aggregate over a keyed table. */
  ghost function SumMap<K(!new)>(m: map<K, int>): int {
    if m == map[] then 0
    else
      var k :| k in m;
      m[k] + SumMap(m - {k})
  }

  lemma {:induction false} SumMapPull<K(!new)>(m: map<K, int>, k: K)
    requires k in m
    ensures SumMap(m) == m[k] + SumMap(m - {k})
    decreases |m|
  {
    var j :| j in m && SumMap(m) == m[j] + SumMap(m - {j});
    if j != k {
      SumMapPull(m - {j}, k);
      SumMapPull(m - {k}, j);
      assert m - {j} - {k} == m - {k} - {j};
    }
  }

  lemma SumMapPut<K(!new)>(m: map<K, int>, k: K, v: int)
    ensures SumMap(m[k := v]) == SumMap(m) - (if k in m then m[k] else 0) + v
  {
    SumMapPull(m[k := v], k);
    if k in m {
      SumMapPull(m, k);
      assert m[k := v] - {k} == m - {k};
    } else {
      assert m[k := v] - {k} == m;
    }
  }

  lemma {:induction false} SumMapZero<K(!new)>(m: map<K, int>)
    requires forall k :: k in m ==> m[k] == 0
    ensures SumMap(m) == 0
    decreases |m|
  {
    if m != map[] {
      var k :| k in m;
      SumMapPull(m, k);
      SumMapZero(m - {k});
    }
  }

  /** Dropping rows from a table of non-negative amounts cannot raise the total. */
  lemma {:induction false} SumMapShrink<K(!new)>(small: map<K, int>, big: map<K, int>)
    requires small.Keys <= big.Keys
    requires forall k :: k in small ==> small[k] == big[k]
    requires forall k :: k in big ==> big[k] >= 0
    ensures 0 <= SumMap(small) <= SumMap(big)
    decreases |big|
  {
    if big == map[] {
      assert small == map[];
    } else {
      var k :| k in big;
      SumMapPull(big, k);
      if k in small {
        SumMapPull(small, k);
        SumMapShrink(small - {k}, big - {k});
      } else {
        SumMapShrink(small, big - {k});
      }
    }
  }

  // ---- rearranged sequences

  lemma CancelOne<T>(ps: multiset<T>, qs: multiset<T>, p: T)
    requires ps + multiset{p} == qs + multiset{p}
    ensures ps == qs
  {
    assert ps == ps + multiset{p} - multiset{p};
    assert qs == qs + multiset{p} - multiset{p};
  }

  lemma PullOut<T>(ps: seq<T>, p: T, qs: seq<T>) returns (i: nat)
    requires multiset(ps + [p]) == multiset(qs)
    ensures i < |qs| && qs[i] == p && multiset(ps) == multiset(qs[..i] + qs[i + 1..])
  {
    assert p in multiset(ps + [p]);
    i :| 0 <= i < |qs| && qs[i] == p;
    var a, b := qs[..i], qs[i + 1..];
    assert qs == a + [p] + b;
    assert multiset(a + b) == multiset(a) + multiset(b);
    CancelOne(multiset(ps), multiset(a + b), p);
  }
}
