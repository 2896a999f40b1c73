/** Sums over finite maps, for the accounting invariants. */
module MapSum {

  ghost function Sum<K>(m: map<K, nat>): nat
    decreases |m|
  {
    if m == map[] then 0
    else
      var k :| k in m;
      m[k] + Sum(m - {k})
  }

  lemma {:induction false} SumTakesOut<K>(m: map<K, nat>, k: K)
    requires k in m
    ensures Sum(m) == m[k] + Sum(m - {k})
    decreases |m|
  {
    var j :| j in m && Sum(m) == m[j] + Sum(m - {j});
    if j != k {
      SumTakesOut(m - {j}, k);
      SumTakesOut(m - {k}, j);
      assert m - {j} - {k} == m - {k} - {j};
    }
  }

  /** Changing one entry changes the sum by the difference; an absent entry counts as zero. */
  lemma SumOfUpdate<K>(m: map<K, nat>, k: K, v: nat)
    ensures Sum(m[k := v]) == Sum(m) - (if k in m then m[k] else 0) + v
    ensures k in m ==> m[k] <= Sum(m)
  {
    SumTakesOut(m[k := v], k);
    assert m[k := v] - {k} == m - {k};
    if k in m {
      SumTakesOut(m, k);
    } else {
      assert m - {k} == m;
    }
  }

  lemma SumOfRemove<K>(m: map<K, nat>, k: K)
    ensures Sum(m - {k}) == Sum(m) - (if k in m then m[k] else 0)
    ensures k in m ==> m[k] <= Sum(m)
  {
    if k in m { SumTakesOut(m, k); } else { assert m - {k} == m; }
  }

  lemma {:induction false} SumMonotone<K>(m: map<K, nat>, n: map<K, nat>)
    requires m.Keys == n.Keys && forall k :: k in m ==> m[k] <= n[k]
    ensures Sum(m) <= Sum(n)
    decreases |m|
  {
    if m != map[] {
      var k :| k in m;
      SumTakesOut(m, k);
      SumTakesOut(n, k);
      assert (m - {k}).Keys == m.Keys - {k} && (n - {k}).Keys == n.Keys - {k};
      SumMonotone(m - {k}, n - {k});
    } else {
      assert n.Keys == {};
    }
  }
}
