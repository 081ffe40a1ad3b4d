// Sums over the values of a map, and sizes of sets that change by one element.
module Counting {
  ghost function Total<K(!new)>(m: map<K, int>): int
    decreases |m|
  {
    if m == map[] then 0
    else
      var k := Pick(m);
      Smaller(m, k);
      m[k] + Total(m - {k})
  }

  ghost function Pick<K(!new), V>(m: map<K, V>): (k: K)
    requires m != map[]
    ensures k in m
  {
    var k :| k in m;
    k
  }

  lemma Smaller<K, V>(m: map<K, V>, k: K)
    requires k in m
    ensures |m - {k}| == |m| - 1
  {
    assert (m - {k}).Keys == m.Keys - {k};
    assert |m.Keys - {k}| == |m.Keys| - 1;
  }

  lemma {:induction false} TotalWithout<K(!new)>(m: map<K, int>, k: K)
    requires k in m
    ensures Total(m) == m[k] + Total(m - {k})
    decreases |m|
  {
    var j := Pick(m);
    if j != k {
      Smaller(m, j);
      Smaller(m, k);
      TotalWithout(m - {j}, k);
      TotalWithout(m - {k}, j);
      assert m - {j} - {k} == m - {k} - {j};
    }
  }

  function Get<K>(m: map<K, int>, k: K): int {
    if k in m then m[k] else 0
  }

  // Changing one value changes the total by as much.
  lemma TotalUpdate<K(!new)>(m: map<K, int>, k: K, v: int)
    ensures Total(m[k := v]) == Total(m) - Get(m, k) + v
  {
    TotalWithout(m[k := v], k);
    assert m[k := v] - {k} == m - {k};
    if k in m {
      TotalWithout(m, k);
    } else {
      assert m - {k} == m;
    }
  }

  lemma TotalRemove<K(!new)>(m: map<K, int>, k: K)
    ensures Total(m - {k}) == Total(m) - Get(m, k)
  {
    if k in m {
      TotalWithout(m, k);
    } else {
      assert m - {k} == m;
    }
  }

  // The entries of a map that satisfy a predicate, and how many there are.

  function Matching<V>(m: map<nat, V>, p: V -> bool): set<nat> {
    set k | k in m && p(m[k])
  }

  function CountIf<V>(m: map<nat, V>, p: V -> bool): nat {
    |Matching(m, p)|
  }

  function Weight<V>(p: V -> bool, v: V): nat {
    if p(v) then 1 else 0
  }

  lemma SizeWithout(s: set<nat>, k: nat)
    ensures |s| == |s - {k}| + if k in s then 1 else 0
  {
    if k !in s {
      assert s - {k} == s;
    }
  }

  lemma MatchingElsewhere<V>(m: map<nat, V>, k: nat, v: V, p: V -> bool)
    ensures Matching(m[k := v], p) - {k} == Matching(m, p) - {k}
  {
    var m' := m[k := v];
    forall x | x != k
      ensures x in Matching(m', p) <==> x in Matching(m, p)
    {
      assert x in m' <==> x in m;
    }
  }

  // Changing one entry changes the count by that entry alone.
  lemma CountUpdate<V>(m: map<nat, V>, k: nat, v: V, p: V -> bool)
    ensures CountIf(m[k := v], p) == CountIf(m, p) - (if k in m then Weight(p, m[k]) else 0) + Weight(p, v)
  {
    var before, after := Matching(m, p), Matching(m[k := v], p);
    MatchingElsewhere(m, k, v, p);
    SizeWithout(before, k);
    SizeWithout(after, k);
    assert k in before <==> k in m && p(m[k]);
    assert k in after <==> p(v);
  }

  lemma MemberCounts<V>(m: map<nat, V>, k: nat, p: V -> bool)
    requires k in m && p(m[k])
    ensures CountIf(m, p) > 0
  {
    assert k in Matching(m, p);
  }
}
