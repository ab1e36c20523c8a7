/** Sums over finite maps, for bounds on the steps of concurrent machines. */
module Sums {

  ghost function Sum<K(!new)>(w: map<K, nat>): nat
    decreases |w|
  {
    if w == map[] then 0
    else
      var k :| k in w;
      w[k] + Sum(w - {k})
  }

  lemma {:induction false} SumWithout<K(!new)>(w: map<K, nat>, k: K)
    requires k in w
    ensures Sum(w) == w[k] + Sum(w - {k})
    decreases |w|
  {
    var c :| c in w && Sum(w) == w[c] + Sum(w - {c});
    if c != k {
      SumWithout(w - {c}, k);
      SumWithout(w - {k}, c);
      assert w - {c} - {k} == w - {k} - {c};
    }
  }

  lemma SumUpdate<K(!new)>(w: map<K, nat>, k: K, v: nat)
    ensures Sum(w[k := v]) == v + Sum(w - {k})
  {
    SumWithout(w[k := v], k);
    assert w[k := v] - {k} == w - {k};
  }

  lemma SubsetSize<T>(a: set<T>, b: set<T>)
    requires a <= b
    ensures |a| <= |b|
  {
    assert b == a + (b - a);
  }
}
