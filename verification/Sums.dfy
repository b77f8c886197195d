/** Sums over finite maps. A sum does not depend on the order in which the entries are taken. */
module Sums {

  ghost function Sum<K>(m: map<K, nat>): nat
    decreases m.Keys
  {
    if m == map[] then 0 else
      var k :| k in m;
      m[k] + Sum(m - {k})
  }

  lemma {:induction false} SumTake<K>(m: map<K, nat>, k: K)
    requires k in m
    ensures Sum(m) == m[k] + Sum(m - {k})
    decreases m.Keys
  {
    var h :| h in m && Sum(m) == m[h] + Sum(m - {h});
    if h != k {
      SumTake(m - {h}, k);
      SumTake(m - {k}, h);
      assert m - {h} - {k} == m - {k} - {h};
    }
  }

  ghost function Bag<K, R>(m: map<K, multiset<R>>): multiset<R>
    decreases m.Keys
  {
    if m == map[] then multiset{} else
      var k :| k in m;
      m[k] + Bag(m - {k})
  }

  lemma {:induction false} BagTake<K, R>(m: map<K, multiset<R>>, k: K)
    requires k in m
    ensures Bag(m) == m[k] + Bag(m - {k})
    decreases m.Keys
  {
    var h :| h in m && Bag(m) == m[h] + Bag(m - {h});
    if h != k {
      BagTake(m - {h}, k);
      BagTake(m - {k}, h);
      assert m - {h} - {k} == m - {k} - {h};
    }
  }

  lemma {:induction false} BagJoin<K, R>(a: map<K, multiset<R>>, b: map<K, multiset<R>>)
    requires a.Keys !! b.Keys
    ensures Bag(a + b) == Bag(a) + Bag(b)
    decreases a.Keys
  {
    if a == map[] {
      assert a + b == b;
    } else {
      var k :| k in a;
      var rest := a - {k};
      assert (a + b)[k] == a[k];
      assert (a + b) - {k} == rest + b;
      BagJoin(rest, b);
      BagTake(a, k);
      BagTake(a + b, k);
    }
  }
}
