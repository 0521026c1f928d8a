/** Sums over the values of a finite map, Python's `sum(d.values())`. */
module Sums {

  ghost function Total<K>(m: map<K, int>): int
    decreases |m|
  {
    if m == map[] then 0
    else
      var k :| k in m;
      m[k] + Total(m - {k})
  }

  /** The order in which the entries are added does not matter. */
  lemma {:induction false} TotalWithout<K>(m: map<K, int>, k: K)
    requires k in m
    ensures Total(m) == m[k] + Total(m - {k})
    decreases |m|
  {
    var first :| first in m && Total(m) == m[first] + Total(m - {first});
    if first != k {
      TotalWithout(m - {first}, k);
      TotalWithout(m - {k}, first);
      assert m - {first} - {k} == m - {k} - {first};
    }
  }

  lemma TotalUpdate<K>(m: map<K, int>, k: K, v: int)
    ensures Total(m[k := v]) == Total(m) - (if k in m then m[k] else 0) + v
  {
    TotalWithout(m[k := v], k);
    assert m[k := v] - {k} == m - {k};
    if k in m {
      TotalWithout(m, k);
    } else {
      assert m - {k} == m;
    }
  }

  lemma {:induction false} TotalSum<K>(a: map<K, int>, b: map<K, int>)
    requires a.Keys == b.Keys
    ensures Total(map k | k in a :: a[k] + b[k]) == Total(a) + Total(b)
    decreases |a|
  {
    var sum := map k | k in a :: a[k] + b[k];
    if a != map[] {
      var k :| k in a;
      TotalWithout(a, k);
      TotalWithout(b, k);
      TotalWithout(sum, k);
      TotalSum(a - {k}, b - {k});
      assert sum - {k} == map j | j in a - {k} :: (a - {k})[j] + (b - {k})[j];
    } else {
      assert sum == map[];
      assert b == map[];
    }
  }

  /** n * x as repeated addition, which keeps the proofs about sums linear. */
  ghost function Times(n: nat, x: int): int
  {
    if n == 0 then 0 else Times(n - 1, x) + x
  }

  lemma {:induction false} TimesIsProduct(n: nat, x: int)
    ensures Times(n, x) == n * x
  {
    if n != 0 {
      TimesIsProduct(n - 1, x);
      assert n * x == (n - 1) * x + x;
    }
  }

  lemma {:induction false} TimesPlus(m: nat, n: nat, x: int)
    ensures Times(m + n, x) == Times(m, x) + Times(n, x)
  {
    if n != 0 {
      TimesPlus(m, n - 1, x);
    }
  }

  /** A lower bound on every value bounds the sum. */
  lemma {:induction false} TotalAtLeast<K>(m: map<K, int>, low: int)
    requires forall k :: k in m ==> low <= m[k]
    ensures Times(|m|, low) <= Total(m)
    decreases |m|
  {
    if m != map[] {
      var k :| k in m;
      var rest := m - {k};
      TotalWithout(m, k);
      assert rest.Keys == m.Keys - {k};
      assert |rest| == |m| - 1;
      TotalAtLeast(rest, low);
    }
  }

  lemma {:induction false} PositiveTotal<K>(m: map<K, int>)
    requires m != map[] && forall k :: k in m ==> 1 <= m[k]
    ensures 1 <= Total(m)
    decreases |m|
  {
    var k :| k in m;
    TotalWithout(m, k);
    if m - {k} != map[] {
      PositiveTotal(m - {k});
    }
  }

  /** A positive sum has a positive summand. */
  lemma {:induction false} PositiveSummand<K>(m: map<K, int>) returns (k: K)
    requires 0 < Total(m)
    ensures k in m && 0 < m[k]
    decreases |m|
  {
    k :| k in m;
    if m[k] <= 0 {
      TotalWithout(m, k);
      k := PositiveSummand(m - {k});
    }
  }

  /** Non-negative summands that add up to zero are all zero. */
  lemma ZeroSum<K>(m: map<K, int>)
    requires Total(m) <= 0
    requires forall k :: k in m ==> 0 <= m[k]
    ensures forall k :: k in m ==> m[k] == 0
  {
    forall k | k in m ensures m[k] == 0 {
      TotalWithout(m, k);
      TotalAtLeast(m - {k}, 0);
      TimesIsProduct(|m - {k}|, 0);
    }
  }
}
