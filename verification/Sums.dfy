/** Sums over the values of finite maps. */
module Sums {
  ghost function MapSum<K>(m: map<K, real>): real
    decreases |m|
  {
    if m == map[] then 0.0
    else
      var k :| k in m;
      m[k] + MapSum(m - {k})
  }

  /** The sum does not depend on which key is taken out first. */
  lemma {:induction false} MapSumTake<K>(m: map<K, real>, x: K)
    requires x in m
    ensures MapSum(m) == m[x] + MapSum(m - {x})
    decreases |m|
  {
    var k :| k in m && MapSum(m) == m[k] + MapSum(m - {k});
    if k != x {
      var mk, mx := m - {k}, m - {x};
      assert |mk| == |m| - 1 && |mx| == |m| - 1 by { assert mk.Keys == m.Keys - {k} && mx.Keys == m.Keys - {x}; }
      MapSumTake(mk, x);
      MapSumTake(mx, k);
      assert mk - {x} == mx - {k};
    }
  }

  lemma MapSumSet<K>(m: map<K, real>, x: K, v: real)
    ensures MapSum(m[x := v]) == MapSum(m) - (if x in m then m[x] else 0.0) + v
  {
    MapSumTake(m[x := v], x);
    assert m[x := v] - {x} == m - {x};
    if x in m { MapSumTake(m, x); } else { assert m - {x} == m; }
  }

  lemma {:induction false} MapSumNonNegative<K>(m: map<K, real>)
    requires forall k :: k in m ==> m[k] >= 0.0
    ensures MapSum(m) >= 0.0
    decreases |m|
  {
    if m != map[] {
      var k :| k in m && MapSum(m) == m[k] + MapSum(m - {k});
      assert (m - {k}).Keys == m.Keys - {k};
      MapSumNonNegative(m - {k});
    }
  }

  /** With no negative summand, no single one exceeds the sum. */
  lemma MapSumBound<K>(m: map<K, real>, x: K)
    requires x in m && forall k :: k in m ==> m[k] >= 0.0
    ensures m[x] <= MapSum(m)
  {
    MapSumTake(m, x);
    MapSumNonNegative(m - {x});
  }
}
