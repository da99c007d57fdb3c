/** Sums over maps, independent of the order a program visits the keys in. */
module Sums {
  import opened Bytes

  type Counts = map<Text, int>

  ghost function Sum<K(!new)>(m: map<K, int>): int {
    if m == map[] then 0
    else
      var k :| k in m;
      m[k] + Sum(m - {k})
  }

  function At<K>(m: map<K, int>, k: K): int {
    if k in m then m[k] else 0
  }

  /** Any key may be visited first. */
  lemma {:induction false} SumAnyKey<K(!new)>(m: map<K, int>, k: K)
    requires k in m
    ensures Sum(m) == m[k] + Sum(m - {k})
    decreases |m|
  {
    var first :| first in m && Sum(m) == m[first] + Sum(m - {first});
    if first != k {
      SumAnyKey(m - {first}, k);
      SumAnyKey(m - {k}, first);
      assert m - {first} - {k} == m - {k} - {first};
    }
  }

  lemma SumUpdate<K(!new)>(m: map<K, int>, k: K, v: int)
    ensures Sum(m[k := v]) == Sum(m) - At(m, k) + v
  {
    SumAnyKey(m[k := v], k);
    assert m[k := v] - {k} == m - {k};
    if k in m {
      SumAnyKey(m, k);
    } else {
      assert m - {k} == m;
    }
  }

  function Within(m: Counts, keys: set<Text>): Counts {
    map k | k in m && k in keys :: m[k]
  }

  function Outside(m: Counts, keys: set<Text>): Counts {
    map k | k in m && k !in keys :: m[k]
  }

  lemma SplitKey(m: Counts, keys: set<Text>, k: Text)
    requires k in m
    ensures k in keys ==> Within(m, keys) - {k} == Within(m - {k}, keys)
    ensures k in keys ==> Outside(m, keys) == Outside(m - {k}, keys)
    ensures k !in keys ==> Outside(m, keys) - {k} == Outside(m - {k}, keys)
    ensures k !in keys ==> Within(m, keys) == Within(m - {k}, keys)
  {
  }

  lemma {:induction false} SumSplit(m: Counts, keys: set<Text>)
    ensures Sum(m) == Sum(Within(m, keys)) + Sum(Outside(m, keys))
    decreases |m|
  {
    if m == map[] {
      assert Within(m, keys) == map[] && Outside(m, keys) == map[];
    } else {
      var k :| k in m;
      SplitKey(m, keys, k);
      SumAnyKey(m, k);
      SumSplit(m - {k}, keys);
      if k in keys {
        SumAnyKey(Within(m, keys), k);
      } else {
        SumAnyKey(Outside(m, keys), k);
      }
    }
  }
}
