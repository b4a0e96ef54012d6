/** Oldest-first eviction of a capacity-bound map, as the response cache and the session tracker do it. */
module OldestFirst {
  import opened Basics

  /** A value and the time it was inserted. */
  datatype Stamped<+V> = Stamped(value: V, at: nat)

  ghost predicate IsOldest<K(!new), V>(m: map<K, Stamped<V>>, k: K)
  {
    k in m && forall j <- m :: m[k].at <= m[j].at
  }

  /** Below capacity nothing goes; at capacity one of the oldest entries does. */
  ghost predicate Evicts<K(!new), V>(before: map<K, Stamped<V>>, after: map<K, Stamped<V>>, capacity: nat)
  {
    if |before| < capacity || before == map[] then after == before
    else exists k :: IsOldest(before, k) && after == before - {k}
  }

  method EvictIfFull<K(!new,==), V>(m: map<K, Stamped<V>>, capacity: nat) returns (after: map<K, Stamped<V>>)
    ensures Evicts(m, after, capacity)
  {
    if |m| < capacity || m == map[] {
      return m;
    }
    var oldest :| oldest in m;
    var rest := m.Keys - {oldest};
    while rest != {}
      invariant oldest in m && rest <= m.Keys
      invariant forall j <- m :: j !in rest ==> m[oldest].at <= m[j].at
      decreases |rest|
    {
      var k :| k in rest;
      if m[k].at < m[oldest].at {
        oldest := k;
      }
      rest := rest - {k};
    }
    assert IsOldest(m, oldest);
    after := m - {oldest};
  }

  /** Time since insertion; a clock that went back reads as zero. */
  function Age(at: nat, now: nat): nat
  {
    if now < at then 0 else now - at
  }

  predicate IsFresh<V>(e: Stamped<V>, now: nat, ttl: nat)
  {
    Age(e.at, now) < ttl
  }

  lemma SizeAfterEviction<K(!new), V>(before: map<K, Stamped<V>>, after: map<K, Stamped<V>>, capacity: nat)
    requires Evicts(before, after, capacity)
    ensures after.Keys <= before.Keys && forall k <- after :: after[k] == before[k]
    ensures |after| == if |before| < capacity || before == map[] then |before| else |before| - 1
  {
    if !(|before| < capacity || before == map[]) {
      var k :| IsOldest(before, k) && after == before - {k};
      assert after.Keys == before.Keys - {k};
    }
  }

  lemma SizeAfterInsert<K(!new), V>(m: map<K, V>, k: K, v: V)
    ensures |m[k := v]| == if k in m then |m| else |m| + 1
  {
    assert m[k := v].Keys == m.Keys + {k};
  }

  /** The keys inserted after a time. */
  ghost function Newer<K(!new), V>(m: map<K, Stamped<V>>, at: nat): set<K>
  {
    set k | k in m && m[k].at > at
  }

  lemma NewerGrowsByOne<K(!new), V>(m: map<K, Stamped<V>>, k: K, v: Stamped<V>, at: nat)
    ensures |Newer(m[k := v], at)| <= |Newer(m, at)| + 1
  {
    assert Newer(m[k := v], at) <= Newer(m, at) + {k};
    SubsetSize(Newer(m[k := v], at), Newer(m, at) + {k});
  }

  lemma {:induction false} SubsetSize<K>(a: set<K>, b: set<K>)
    requires a <= b
    ensures |a| <= |b|
  {
    assert b == a + (b - a);
    assert |b| == |a| + |b - a|;
  }

  lemma NewerShrinks<K(!new), V>(before: map<K, Stamped<V>>, after: map<K, Stamped<V>>, at: nat)
    requires after.Keys <= before.Keys && forall k <- after :: after[k] == before[k]
    ensures |Newer(after, at)| <= |Newer(before, at)|
  {
    SubsetSize(Newer(after, at), Newer(before, at));
  }

  /** An entry can be evicted only when the map is otherwise full of entries at least as new. */
  lemma EvictedWhenOthersNewer<K(!new), V>(before: map<K, Stamped<V>>, after: map<K, Stamped<V>>, capacity: nat, k: K)
    requires Evicts(before, after, capacity) && k in before && k !in after
    requires forall j <- before :: j != k ==> before[j].at != before[k].at
    ensures capacity <= |before| == |Newer(before, before[k].at)| + 1
  {
    var victim :| IsOldest(before, victim) && after == before - {victim};
    assert victim == k;
    assert before.Keys == Newer(before, before[k].at) + {k};
  }
}
