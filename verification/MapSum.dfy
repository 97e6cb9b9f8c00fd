/** The sum of the values of a finite map. */
module MapSum {

  ghost function Sum<K>(m: map<K, nat>): nat {
    if m == map[] then 0
    else
      var k :| k in m;
      m[k] + Sum(m - {k})
  }

  /** Any key can be taken out first. */
  lemma {:induction false} SumWithout<K>(m: map<K, nat>, k: K)
    requires k in m
    ensures Sum(m) == m[k] + Sum(m - {k})
    decreases |m|
  {
    var j :| j in m && Sum(m) == m[j] + Sum(m - {j});
    if j == k {
    } else {
      var rest := m - {j} - {k};
      assert rest == m - {k} - {j};
      SumWithout(m - {j}, k);
      SumWithout(m - {k}, j);
      assert Sum(m) == m[j] + (m[k] + Sum(rest));
    }
  }

  lemma SumUpdate<K>(m: map<K, nat>, k: K, v: nat)
    ensures Sum(m[k := v]) == Sum(m) - (if k in m then m[k] else 0) + v
  {
    SumWithout(m[k := v], k);
    if k in m {
      SumWithout(m, k);
      assert m[k := v] - {k} == m - {k};
    } else {
      assert m[k := v] - {k} == m;
    }
  }
}
