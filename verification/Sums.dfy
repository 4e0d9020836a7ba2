/** Sums over finite maps, in no particular order. */
module Sums {

  ghost function Pick<K(!new)>(m: map<K, nat>): K
    requires m != map[]
    ensures Pick(m) in m
  {
    assert m.Keys != {};
    var k :| k in m; k
  }

  ghost function Sum<K(!new)>(m: map<K, nat>): nat
    decreases |m|
  {
    if m == map[] then 0
    else
      var k := Pick(m);
      m[k] + Sum(m - {k})
  }

  /** Any key may be taken out first. */
  lemma {:induction false} SumTake<K(!new)>(m: map<K, nat>, k: K)
    requires k in m
    ensures Sum(m) == m[k] + Sum(m - {k})
    decreases |m|
  {
    var p := Pick(m);
    if p != k {
      SumTake(m - {p}, k);
      assert p in m - {k};
      SumTake(m - {k}, p);
      assert (m - {p}) - {k} == (m - {k}) - {p};
    }
  }

  lemma SumUpdate<K(!new)>(m: map<K, nat>, k: K, v: nat)
    ensures Sum(m[k := v]) == Sum(m) - (if k in m then m[k] else 0) + v
  {
    SumTake(m[k := v], k);
    assert m[k := v] - {k} == m - {k};
    if k in m {
      SumTake(m, k);
    } else {
      assert m - {k} == m;
    }
  }

  lemma SumTerm<K(!new)>(m: map<K, nat>, k: K)
    requires k in m
    ensures m[k] <= Sum(m)
  {
    SumTake(m, k);
  }

  lemma {:induction false} SumOfZeros<K(!new)>(m: map<K, nat>)
    requires forall k <- m :: m[k] == 0
    ensures Sum(m) == 0
    decreases |m|
  {
    if m != map[] {
      SumOfZeros(m - {Pick(m)});
    }
  }

  /** Termwise comparison along an injection of the keys. */
  lemma {:induction false} SumInjective<K(!new)>(m: map<K, nat>, n: map<K, nat>, to: map<K, K>)
    requires m.Keys <= to.Keys && forall k <- m :: to[k] in n && m[k] <= n[to[k]]
    requires forall j, k :: j in m && k in m && j != k ==> to[j] != to[k]
    ensures Sum(m) <= Sum(n)
    decreases |m|
  {
    if m != map[] {
      var k := Pick(m);
      SumTake(n, to[k]);
      SumInjective(m - {k}, n - {to[k]}, to);
    }
  }
}
