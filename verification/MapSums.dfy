/** Sums over maps, used wherever global counters have to equal totals over many owners. */
module MapSums {

  /** Two pairs of an item count and a byte count that move together. */
  datatype Counters = Counters(items: int, bytes: int, items2: int, bytes2: int)
  {
    function Plus(o: Counters): Counters
    {
      Counters(items + o.items, bytes + o.bytes, items2 + o.items2, bytes2 + o.bytes2)
    }

    function Minus(o: Counters): Counters
    {
      Counters(items - o.items, bytes - o.bytes, items2 - o.items2, bytes2 - o.bytes2)
    }

    predicate NonNegative()
    {
      0 <= items && 0 <= bytes && 0 <= items2 && 0 <= bytes2
    }

    /** Both pairs agree. */
    predicate Twin()
    {
      items == items2 && bytes == bytes2
    }
  }

  const Zero := Counters(0, 0, 0, 0)

  ghost function Pick<K, V>(m: map<K, V>): (k: K)
    requires m != map[]
    ensures k in m
  {
    var k :| k in m; k
  }

  /** The total weight of the values of m. The order in which keys are picked does not matter: see SumSplit. */
  ghost function Sum<K, V>(m: map<K, V>, w: V -> Counters): Counters
  {
    if m == map[] then Zero else w(m[Pick(m)]).Plus(Sum(m - {Pick(m)}, w))
  }

  lemma {:induction false} SumSplit<K, V>(m: map<K, V>, w: V -> Counters, k: K)
    requires k in m
    ensures Sum(m, w) == w(m[k]).Plus(Sum(m - {k}, w))
    decreases |m|
  {
    var j := Pick(m);
    if j != k {
      SumSplit(m - {j}, w, k);
      SumSplit(m - {k}, w, j);
      assert m - {j} - {k} == m - {k} - {j};
    }
  }

  /** Changing the value at one key moves the sum by the change of its weight. */
  lemma SumUpdate<K, V>(m: map<K, V>, w: V -> Counters, k: K, v: V)
    ensures Sum(m[k := v], w) == (if k in m then Sum(m, w).Minus(w(m[k])) else Sum(m, w)).Plus(w(v))
  {
    SumSplit(m[k := v], w, k);
    if k in m {
      SumSplit(m, w, k);
      assert m[k := v] - {k} == m - {k};
    } else {
      assert m[k := v] - {k} == m;
    }
  }

  lemma SumRemove<K, V>(m: map<K, V>, w: V -> Counters, k: K)
    requires k in m
    ensures Sum(m - {k}, w) == Sum(m, w).Minus(w(m[k]))
  {
    SumSplit(m, w, k);
  }

  lemma {:induction false} SumTwin<K, V>(m: map<K, V>, w: V -> Counters)
    requires forall k :: k in m ==> w(m[k]).Twin()
    ensures Sum(m, w).Twin()
    decreases |m|
  {
    if m != map[] {
      var j := Pick(m);
      SumTwin(m - {j}, w);
    }
  }

  lemma {:induction false} SumZero<K, V>(m: map<K, V>, w: V -> Counters)
    requires forall k :: k in m ==> w(m[k]) == Zero
    ensures Sum(m, w) == Zero
    decreases |m|
  {
    if m != map[] {
      var j := Pick(m);
      SumZero(m - {j}, w);
    }
  }

  /** Maps that weigh the same at every key weigh the same in total. */
  lemma {:induction false} SumSame<K, V, W>(m: map<K, V>, w: V -> Counters, n: map<K, W>, x: W -> Counters)
    requires m.Keys == n.Keys && forall k :: k in m ==> w(m[k]) == x(n[k])
    ensures Sum(m, w) == Sum(n, x)
    decreases |m|
  {
    if m != map[] {
      var k := Pick(m);
      SumSplit(n, x, k);
      SumSame(m - {k}, w, n - {k}, x);
    }
  }

  lemma {:induction false} SumNonNegative<K, V>(m: map<K, V>, w: V -> Counters)
    requires forall k :: k in m ==> w(m[k]).NonNegative()
    ensures Sum(m, w).NonNegative()
    decreases |m|
  {
    if m != map[] {
      var j := Pick(m);
      SumNonNegative(m - {j}, w);
    }
  }

  lemma CountRemove<K, V>(m: map<K, V>, k: K)
    requires k in m
    ensures |m - {k}| == |m| - 1
  {
    assert (m - {k}).Keys == m.Keys - {k};
  }
}
