/** Sums over the values of a finite map. */
module Sums {

  ghost function Sum<K(!new)>(m: map<K, int>): int {
    if m == map[] then 0
    else var k :| k in m; m[k] + Sum(m - {k})
  }

  lemma {:induction false} SumWithout<K(!new)>(m: map<K, int>, k: K)
    requires k in m
    ensures Sum(m) == m[k] + Sum(m - {k})
    decreases |m|
  {
    var j :| j in m && Sum(m) == m[j] + Sum(m - {j});
    if j != k {
      SumWithout(m - {j}, k);
      SumWithout(m - {k}, j);
      assert m - {j} - {k} == m - {k} - {j};
    }
  }

  lemma SumUpdated<K(!new)>(m: map<K, int>, k: K, v: int)
    ensures Sum(m[k := v]) == Sum(m) + v - if k in m then m[k] else 0
  {
    SumWithout(m[k := v], k);
    assert m[k := v] - {k} == m - {k};
    if k in m {
      SumWithout(m, k);
    } else {
      assert m - {k} == m;
    }
  }

  /** A map of zeros and ones sums to the number of its ones. */
  lemma {:induction false} SumOfOnes<K(!new)>(m: map<K, int>)
    requires forall k :: k in m ==> m[k] == 0 || m[k] == 1
    ensures Sum(m) == |set k | k in m && m[k] == 1|
    decreases |m|
  {
    var ones := set k | k in m && m[k] == 1;
    if m == map[] {
      assert ones == {};
    } else {
      var k :| k in m;
      var rest := m - {k};
      SumWithout(m, k);
      SumOfOnes(rest);
      var others := set j | j in rest && rest[j] == 1;
      assert ones == others + if m[k] == 1 then {k} else {};
    }
  }

  lemma {:induction false} SumAdds<K(!new)>(a: map<K, int>, b: map<K, int>, c: map<K, int>)
    requires a.Keys == b.Keys == c.Keys && forall k :: k in c ==> c[k] == a[k] + b[k]
    ensures Sum(c) == Sum(a) + Sum(b)
    decreases |c|
  {
    if c != map[] {
      var k :| k in c;
      SumWithout(a, k);
      SumWithout(b, k);
      SumWithout(c, k);
      SumAdds(a - {k}, b - {k}, c - {k});
    } else {
      assert a == map[] && b == map[];
    }
  }
}
