/** The sum of the values of a finite map, and how it follows updates of one key. */
module MapSums {

  ghost function Sum<K>(m: map<K, nat>): nat
    decreases |m|
  {
    if m == map[] then 0
    else
      var k :| k in m;
      assert |m - {k}| < |m| by { assert (m - {k}).Keys == m.Keys - {k}; }
      m[k] + Sum(m - {k})
  }

  lemma {:induction false} SumRemove<K>(m: map<K, nat>, key: K)
    requires key in m
    ensures Sum(m) == m[key] + Sum(m - {key})
    decreases |m|
  {
    var k :| k in m && Sum(m) == m[k] + Sum(m - {k});
    if k != key {
      var rest := m - {k};
      assert rest.Keys == m.Keys - {k};
      SumRemove(rest, key);
      var other := m - {key};
      assert other.Keys == m.Keys - {key};
      SumRemove(other, k);
      assert rest - {key} == other - {k};
    }
  }

  lemma {:induction false} SumUpdate<K>(m: map<K, nat>, key: K, value: nat)
    ensures Sum(m[key := value]) == Sum(m - {key}) + value
  {
    SumRemove(m[key := value], key);
    assert m[key := value] - {key} == m - {key};
  }

  lemma {:induction false} SumInsert<K>(m: map<K, nat>, key: K, value: nat)
    requires key !in m
    ensures Sum(m[key := value]) == Sum(m) + value
  {
    SumUpdate(m, key, value);
    assert m - {key} == m;
  }
}
