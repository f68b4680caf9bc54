/** Sums over the values of a finite map, which is how the budgets and the
    counters that several keys share are specified. */
module MapSums {

  ghost function Sum<K>(m: map<K, int>): int
    decreases |m|
  {
    if m == map[] then 0
    else
      var k :| k in m;
      m[k] + Sum(m - {k})
  }

  /** Any key may be taken out first, so the sum depends on the map alone. */
  lemma {:induction false} SumRemove<K>(m: map<K, int>, k: K)
    requires k in m
    ensures Sum(m) == m[k] + Sum(m - {k})
    decreases |m|
  {
    var first :| first in m && Sum(m) == m[first] + Sum(m - {first});
    if first != k {
      SumRemove(m - {first}, k);
      SumRemove(m - {k}, first);
      assert m - {first} - {k} == m - {k} - {first};
    }
  }

  function ValueOr<K>(m: map<K, int>, k: K, default: int): int {
    if k in m then m[k] else default
  }

  /** Rewriting one value moves the sum by the change to it. */
  lemma SumUpdate<K>(m: map<K, int>, k: K, v: int)
    ensures Sum(m[k := v]) == Sum(m) - ValueOr(m, k, 0) + v
  {
    SumRemove(m[k := v], k);
    assert m[k := v] - {k} == m - {k};
    if k in m {
      SumRemove(m, k);
    } else {
      assert m - {k} == m;
    }
  }

  lemma {:induction false} SumNonNegative<K>(m: map<K, int>)
    requires forall k :: k in m ==> m[k] >= 0
    ensures Sum(m) >= 0
    decreases |m|
  {
    if m != map[] {
      var k :| k in m;
      SumRemove(m, k);
      SumNonNegative(m - {k});
    }
  }

  /** Dropping values that are not negative never raises the sum. */
  lemma {:induction false} SumShrinks<K>(kept: map<K, int>, m: map<K, int>)
    requires forall k :: k in kept ==> k in m && kept[k] == m[k]
    requires forall k :: k in m ==> m[k] >= 0
    ensures Sum(kept) <= Sum(m)
    decreases |kept|
  {
    if kept == map[] {
      SumNonNegative(m);
    } else {
      var k :| k in kept;
      SumRemove(kept, k);
      SumRemove(m, k);
      SumShrinks(kept - {k}, m - {k});
    }
  }

  /** The pooled contents of a map of multisets. */
  ghost function Pool<K, V>(m: map<K, multiset<V>>): multiset<V>
    decreases |m|
  {
    if m == map[] then multiset{}
    else
      var k :| k in m;
      m[k] + Pool(m - {k})
  }

  lemma {:induction false} PoolRemove<K, V>(m: map<K, multiset<V>>, k: K)
    requires k in m
    ensures Pool(m) == m[k] + Pool(m - {k})
    decreases |m|
  {
    var first :| first in m && Pool(m) == m[first] + Pool(m - {first});
    if first != k {
      PoolRemove(m - {first}, k);
      PoolRemove(m - {k}, first);
      assert m - {first} - {k} == m - {k} - {first};
    }
  }

  lemma PoolInsert<K, V>(m: map<K, multiset<V>>, k: K, v: multiset<V>)
    requires k !in m
    ensures Pool(m[k := v]) == Pool(m) + v
  {
    PoolRemove(m[k := v], k);
    assert m[k := v] - {k} == m;
  }

  lemma PoolUpdate<K, V>(m: map<K, multiset<V>>, k: K, extra: multiset<V>)
    requires k in m
    ensures Pool(m[k := m[k] + extra]) == Pool(m) + extra
  {
    PoolRemove(m, k);
    PoolRemove(m[k := m[k] + extra], k);
    assert m[k := m[k] + extra] - {k} == m - {k};
  }
}
