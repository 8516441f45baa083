/** Sums over the values of a map. */
module Sums {

  ghost function Sum(m: map<nat, int>): (total: int)
    ensures (forall k :: k in m ==> m[k] >= 0) ==> total >= 0
    decreases |m|
  {
    if m == map[] then 0
    else
      var k :| k in m;
      m[k] + Sum(m - {k})
  }

  lemma {:induction false} SumWithout(m: map<nat, int>, k: nat)
    requires k in m
    ensures Sum(m) == m[k] + Sum(m - {k})
    decreases |m|
  {
    var x :| x in m && Sum(m) == m[x] + Sum(m - {x});
    if x != k {
      SumWithout(m - {x}, k);
      SumWithout(m - {k}, x);
      assert m - {x} - {k} == m - {k} - {x};
    }
  }

  /** Smaller values have no larger a sum, and neither have fewer, if those left out are not negative. */
  lemma {:induction false} SumMonotone(m: map<nat, int>, n: map<nat, int>)
    requires forall k :: k in m ==> k in n && m[k] <= n[k]
    requires forall k :: k in n && k !in m ==> n[k] >= 0
    ensures Sum(m) <= Sum(n)
    decreases |m|
  {
    if m != map[] {
      var k :| k in m;
      SumWithout(m, k);
      SumWithout(n, k);
      SumMonotone(m - {k}, n - {k});
    }
  }
}
