/** A map that enumerates its entries in insertion order, as the runtime's Map does. */
module OrderedMap {

  datatype Entry<K, V> = Entry(key: K, value: V)

  predicate Has<K(==), V>(m: seq<Entry<K, V>>, k: K) {
    exists i | 0 <= i < |m| :: m[i].key == k
  }

  function Get<K(==), V>(m: seq<Entry<K, V>>, k: K, default: V): V {
    if m == [] then default else if m[0].key == k then m[0].value else Get(m[1..], k, default)
  }

  function Set<K(==), V>(m: seq<Entry<K, V>>, k: K, v: V): seq<Entry<K, V>> {
    if m == [] then [Entry(k, v)]
    else if m[0].key == k then [Entry(k, v)] + m[1..]
    else [m[0]] + Set(m[1..], k, v)
  }

  // No key has two entries.
  ghost predicate Functional<K, V>(m: seq<Entry<K, V>>) {
    forall i, j | 0 <= i < j < |m| :: m[i].key != m[j].key
  }

  lemma {:induction false} SetKeys<K, V>(m: seq<Entry<K, V>>, k: K, v: V)
    ensures forall x :: Has(Set(m, k, v), x) <==> x == k || Has(m, x)
    ensures Functional(m) ==> Functional(Set(m, k, v))
  {
    var after := Set(m, k, v);
    if m == [] {
      assert after[0].key == k;
    } else if m[0].key == k {
      assert forall i | 0 <= i < |m| :: after[i].key == m[i].key;
    } else {
      SetKeys(m[1..], k, v);
      assert forall i | 0 < i < |after| :: after[i] == Set(m[1..], k, v)[i - 1];
      forall x ensures Has(after, x) <==> x == k || Has(m, x) {
        assert Has(after, x) <==> x == m[0].key || Has(after[1..], x) by {
          assert after[1..] == Set(m[1..], k, v);
          if x == m[0].key { assert after[0].key == x; }
          if Has(after[1..], x) {
            var i :| 0 <= i < |after[1..]| && after[1..][i].key == x;
            assert after[i + 1].key == x;
          }
        }
        assert Has(m, x) <==> x == m[0].key || Has(m[1..], x) by {
          if x == m[0].key { assert m[0].key == x; }
          if Has(m[1..], x) { var i :| 0 <= i < |m[1..]| && m[1..][i].key == x; assert m[i + 1].key == x; }
        }
      }
      if Functional(m) {
        forall i | 0 <= i < |m[1..]| ensures m[1..][i].key != m[0].key { assert m[1..][i] == m[i + 1]; }
        assert !Has(m[1..], m[0].key);
        forall j | 0 < j < |after| ensures after[j].key != m[0].key {
          assert Has(Set(m[1..], k, v), after[j].key) by { assert Set(m[1..], k, v)[j - 1].key == after[j].key; }
        }
        forall i, j | 0 <= i < j < |m[1..]| ensures m[1..][i].key != m[1..][j].key {
          assert m[i + 1].key != m[j + 1].key;
        }
      }
    }
  }

  // Reading back: the written key has the new value, every other key what it had.
  lemma {:induction false} GetSet<K, V>(m: seq<Entry<K, V>>, k: K, v: V, x: K, default: V)
    ensures Get(Set(m, k, v), x, default) == if x == k then v else Get(m, x, default)
  {
    if m != [] && m[0].key != k {
      GetSet(m[1..], k, v, x, default);
    }
  }

  function Keys<K, V>(m: seq<Entry<K, V>>): seq<K> {
    seq(|m|, i requires 0 <= i < |m| => m[i].key)
  }

  // A key keeps its place when it is written again, and a new one goes last.
  lemma {:induction false} SetOrder<K, V>(m: seq<Entry<K, V>>, k: K, v: V)
    ensures Keys(Set(m, k, v)) == if Has(m, k) then Keys(m) else Keys(m) + [k]
  {
    if m != [] && m[0].key != k {
      SetOrder(m[1..], k, v);
      assert Has(m, k) <==> Has(m[1..], k) by {
        forall i | 0 <= i < |m[1..]| ensures m[1..][i] == m[i + 1] {}
        if Has(m, k) {
          var i :| 0 <= i < |m| && m[i].key == k;
          assert m[1..][i - 1].key == k;
        }
      }
      assert Keys(m) == [m[0].key] + Keys(m[1..]);
      assert Keys(Set(m, k, v)) == [m[0].key] + Keys(Set(m[1..], k, v));
    } else if m != [] {
      assert Has(m, k);
    }
  }

  lemma FunctionalTail<K, V>(m: seq<Entry<K, V>>)
    requires m != [] && Functional(m)
    ensures Functional(m[1..]) && !Has(m[1..], m[0].key)
  {
    forall i, j | 0 <= i < j < |m[1..]| ensures m[1..][i].key != m[1..][j].key {
      assert m[i + 1].key != m[j + 1].key;
    }
    forall i | 0 <= i < |m[1..]| ensures m[1..][i].key != m[0].key {
      assert m[1..][i] == m[i + 1];
    }
  }

  lemma {:induction false} AbsentIsDefault<K, V>(m: seq<Entry<K, V>>, k: K, default: V)
    requires !Has(m, k)
    ensures Get(m, k, default) == default
  {
    if m != [] {
      assert m[0].key != k;
      forall i | 0 <= i < |m[1..]| ensures m[1..][i].key != k {
        assert m[1..][i] == m[i + 1];
      }
      AbsentIsDefault(m[1..], k, default);
    }
  }
}
