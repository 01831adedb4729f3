/** What several modules share. */
module Common {

  datatype Option<+T> = None | Some(value: T)

  /** The status of an execution. */
  datatype Status = Pending | Running | Completed | Failed | Cancelled

  // ---------------------------------------------------------------- adding up a table

  /** Addition whose order and grouping do not matter. */
  ghost predicate Adds<V(!new)>(plus: (V, V) -> V, zero: V) {
    && (forall a :: plus(zero, a) == a)
    && (forall a, b :: plus(a, b) == plus(b, a))
    && forall a, b, c :: plus(plus(a, b), c) == plus(a, plus(b, c))
  }

  ghost function SumOf<K, V>(m: map<K, V>, plus: (V, V) -> V, zero: V): V
    decreases |m|
  {
    if m == map[] then zero
    else
      var k :| k in m;
      plus(m[k], SumOf(m - {k}, plus, zero))
  }

  lemma {:induction false} SumWithout<K, V(!new)>(m: map<K, V>, plus: (V, V) -> V, zero: V, k: K)
    requires Adds(plus, zero) && k in m
    ensures SumOf(m, plus, zero) == plus(m[k], SumOf(m - {k}, plus, zero))
    decreases |m|
  {
    hide Adds;
    var j :| j in m && SumOf(m, plus, zero) == plus(m[j], SumOf(m - {j}, plus, zero));
    if j != k {
      SumWithout(m - {j}, plus, zero, k);
      SumWithout(m - {k}, plus, zero, j);
      assert m - {j} - {k} == m - {k} - {j};
      PlusSwaps(plus, zero, m[j], m[k], SumOf(m - {j} - {k}, plus, zero));
    }
  }

  lemma PlusSwaps<V(!new)>(plus: (V, V) -> V, zero: V, a: V, b: V, c: V)
    requires Adds(plus, zero)
    ensures plus(a, plus(b, c)) == plus(b, plus(a, c))
  {
    assert plus(plus(a, b), c) == plus(a, plus(b, c)) && plus(plus(b, a), c) == plus(b, plus(a, c));
  }

  lemma PlusLast<V(!new)>(plus: (V, V) -> V, zero: V, a: V, b: V, c: V)
    requires Adds(plus, zero)
    ensures plus(plus(a, b), c) == plus(plus(a, c), b)
  {
    assert plus(plus(a, b), c) == plus(a, plus(b, c)) && plus(plus(a, c), b) == plus(a, plus(c, b));
  }

  lemma PlusFirst<V(!new)>(plus: (V, V) -> V, zero: V, a: V, b: V)
    requires Adds(plus, zero)
    ensures plus(plus(zero, a), b) == plus(b, a)
  {
  }

  function EntryOf<K, V>(m: map<K, V>, k: K, zero: V): V {
    if k in m then m[k] else zero
  }

  /** Adding to one entry adds to the sum. */
  lemma SumAdd<K, V(!new)>(m: map<K, V>, plus: (V, V) -> V, zero: V, k: K, one: V)
    requires Adds(plus, zero)
    ensures SumOf(m[k := plus(EntryOf(m, k, zero), one)], plus, zero) == plus(SumOf(m, plus, zero), one)
  {
    hide SumOf, Adds;
    var after := m[k := plus(EntryOf(m, k, zero), one)];
    var rest := SumOf(m - {k}, plus, zero);
    SumWithout(after, plus, zero, k);
    assert after - {k} == m - {k};
    if k in m {
      SumWithout(m, plus, zero, k);
      PlusLast(plus, zero, m[k], one, rest);
    } else {
      assert m - {k} == m;
      PlusFirst(plus, zero, one, rest);
    }
  }
}
