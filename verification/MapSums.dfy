/** Sums over finite maps, independent of the order of iteration. */
module MapSums {
  ghost function Sum<T>(m: map<nat, T>, f: T -> nat): nat
    decreases |m|
  {
    if m == map[] then 0
    else
      var k :| k in m;
      f(m[k]) + Sum(m - {k}, f)
  }

  /** Any entry may be taken out first. */
  lemma {:induction false} SumRemove<T>(m: map<nat, T>, k: nat, f: T -> nat)
    requires k in m
    ensures Sum(m, f) == f(m[k]) + Sum(m - {k}, f)
    decreases |m|
  {
    var j :| j in m && Sum(m, f) == f(m[j]) + Sum(m - {j}, f);
    if j != k {
      SumRemove(m - {j}, k, f);
      SumRemove(m - {k}, j, f);
      assert m - {j} - {k} == m - {k} - {j};
    }
  }

  lemma SumInsert<T>(m: map<nat, T>, k: nat, v: T, f: T -> nat)
    requires k !in m
    ensures Sum(m[k := v], f) == Sum(m, f) + f(v)
  {
    SumRemove(m[k := v], k, f);
    assert m[k := v] - {k} == m;
  }

  lemma SumReplace<T>(m: map<nat, T>, k: nat, v: T, f: T -> nat)
    requires k in m
    ensures Sum(m[k := v], f) + f(m[k]) == Sum(m, f) + f(v)
  {
    SumRemove(m, k, f);
    SumRemove(m[k := v], k, f);
    assert m[k := v] - {k} == m - {k};
  }

  predicate Within<T(==)>(a: map<nat, T>, b: map<nat, T>) {
    forall k | k in a :: k in b && a[k] == b[k]
  }

  lemma {:induction false} SumWithin<T>(a: map<nat, T>, b: map<nat, T>, f: T -> nat)
    requires Within(a, b)
    ensures Sum(a, f) <= Sum(b, f) && |a| <= |b|
    decreases |a|
  {
    if a != map[] {
      var k :| k in a;
      SumRemove(a, k, f);
      SumRemove(b, k, f);
      SumWithin(a - {k}, b - {k}, f);
    }
  }

  /** Sums over different maps compare when their terms do, absent keys counting nothing. */
  lemma {:induction false} SumBounded<T, U>(a: map<nat, T>, f: T -> nat, b: map<nat, U>, g: U -> nat)
    requires forall k | k in a :: f(a[k]) <= if k in b then g(b[k]) else 0
    ensures Sum(a, f) <= Sum(b, g)
    decreases |a|
  {
    if a != map[] {
      var k :| k in a;
      SumRemove(a, k, f);
      if k in b {
        SumRemove(b, k, g);
      } else {
        assert b - {k} == b;
      }
      SumBounded(a - {k}, f, b - {k}, g);
    }
  }

  function One<T>(v: T): nat { 1 }

  lemma {:induction false} SumOfOnes<T>(m: map<nat, T>)
    ensures Sum(m, One) == |m|
    decreases |m|
  {
    if m != map[] {
      var k :| k in m;
      SumRemove(m, k, One);
      SumOfOnes(m - {k});
    }
  }
}
