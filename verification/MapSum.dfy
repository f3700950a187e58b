/** Adding up a table, whatever order its rows come in. */
module MapSum {

  ghost function SumOver<V>(m: map<nat, V>, f: V -> nat): nat
    decreases |m|
  {
    if m == map[] then 0
    else
      var k :| k in m;
      f(m[k]) + SumOver(m - {k}, f)
  }

  lemma {:induction false} SumRemove<V>(m: map<nat, V>, k: nat, f: V -> nat)
    requires k in m
    ensures SumOver(m, f) == f(m[k]) + SumOver(m - {k}, f)
    decreases |m|
  {
    var j :| j in m && SumOver(m, f) == f(m[j]) + SumOver(m - {j}, f);
    if j != k {
      SumRemove(m - {j}, k, f);
      SumRemove(m - {k}, j, f);
      assert m - {j} - {k} == m - {k} - {j};
    }
  }

  lemma SumSet<V>(m: map<nat, V>, k: nat, v: V, f: V -> nat)
    ensures SumOver(m[k := v], f) == f(v) + SumOver(m - {k}, f)
  {
    SumRemove(m[k := v], k, f);
    assert m[k := v] - {k} == m - {k};
  }

  lemma SumWithout<V>(m: map<nat, V>, k: nat, f: V -> nat)
    requires k !in m
    ensures SumOver(m - {k}, f) == SumOver(m, f)
  {
    assert m - {k} == m;
  }

  /** A sum of things that are at most `bound` each. */
  lemma {:induction false} SumBounded<V>(m: map<nat, V>, f: V -> nat, count: V -> nat, bound: nat)
    requires forall k :: k in m ==> f(m[k]) <= count(m[k]) * bound
    ensures SumOver(m, f) <= SumOver(m, count) * bound
    decreases |m|
  {
    if m != map[] {
      var k :| k in m;
      SumBounded(m - {k}, f, count, bound);
      SumRemove(m, k, f);
      SumRemove(m, k, count);
      assert (count(m[k]) + SumOver(m - {k}, count)) * bound
          == count(m[k]) * bound + SumOver(m - {k}, count) * bound;
    }
  }

  /** Only what the rows weigh matters. */
  lemma {:induction false} SumSame<V>(m: map<nat, V>, n: map<nat, V>, f: V -> nat)
    requires m.Keys == n.Keys && forall k :: k in m ==> f(m[k]) == f(n[k])
    ensures SumOver(m, f) == SumOver(n, f)
    decreases |m|
  {
    if m == map[] {
      assert n == map[];
    } else {
      var k :| k in m;
      SumRemove(m, k, f);
      SumRemove(n, k, f);
      SumSame(m - {k}, n - {k}, f);
    }
  }
}
