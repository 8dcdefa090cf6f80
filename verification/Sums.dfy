/** Sums of the values of finite maps. */
module Sums {
  function Get<K>(m: map<K, nat>, k: K): nat {
    if k in m then m[k] else 0
  }

  ghost function Sum<K>(m: map<K, nat>): nat
    decreases |m|
  {
    if m == map[] then 0
    else
      var k :| k in m;
      assert (m - {k}).Keys == m.Keys - {k};
      m[k] + Sum(m - {k})
  }

  /** Any entry can be taken out first. */
  lemma {:induction false} SumPick<K>(m: map<K, nat>, k: K)
    requires k in m
    ensures Sum(m) == m[k] + Sum(m - {k})
    decreases |m|
  {
    var first :| first in m && Sum(m) == m[first] + Sum(m - {first});
    if first != k {
      assert (m - {first}).Keys == m.Keys - {first} && (m - {k}).Keys == m.Keys - {k};
      SumPick(m - {first}, k);
      SumPick(m - {k}, first);
      assert m - {first} - {k} == m - {k} - {first};
    }
  }

  lemma SumSet<K>(m: map<K, nat>, k: K, v: nat)
    ensures Sum(m[k := v]) == Sum(m) - Get(m, k) + v
    ensures Get(m, k) <= Sum(m)
  {
    SumPick(m[k := v], k);
    assert m[k := v] - {k} == m - {k};
    if k in m {
      SumPick(m, k);
    } else {
      assert m - {k} == m;
    }
  }

  lemma OneMore(n: nat, b: nat)
    requires n > 0
    ensures (n - 1) * b + b == n * b
  {
  }

  lemma {:induction false} SumBound<K>(m: map<K, nat>, b: nat)
    requires forall k :: k in m ==> m[k] <= b
    ensures Sum(m) <= |m| * b
    decreases |m|
  {
    if m != map[] {
      var k :| k in m;
      var rest := m - {k};
      assert rest.Keys == m.Keys - {k};
      assert |rest| == |m| - 1;
      SumPick(m, k);
      SumBound(rest, b);
      OneMore(|m|, b);
    }
  }
}
