/** Smooth weighted round robin: what one pick does to the credit map, and what every
    run of picks guarantees. Ties between equal credits are left open, so each result
    holds for whatever the number of active requests decides. */
module WeightedRoundRobin {
  import opened Common
  import opened Sequences
  import opened Sums

  type Credits = map<NodeId, int>

  /** Weights are `max(1, effective_weight)`. */
  ghost predicate Positive(w: map<NodeId, int>)
  {
    w != map[] && forall n :: n in w ==> 1 <= w[n]
  }

  /** The credits a pick starts from: all zero again when the set of nodes has changed. */
  function Opening(credits: Credits, w: map<NodeId, int>): Credits
  {
    if credits.Keys == w.Keys then credits else map n | n in w :: 0
  }

  function Boosted(credits: Credits, w: map<NodeId, int>): Credits
  {
    map n | n in w :: Opening(credits, w)[n] + w[n]
  }

  /** One pick: the chosen node has a largest boosted credit and pays the total weight. */
  ghost predicate Picks(before: Credits, w: map<NodeId, int>, chosen: NodeId, after: Credits)
  {
    && chosen in w
    && (forall n :: n in w ==> Boosted(before, w)[n] <= Boosted(before, w)[chosen])
    && after == Boosted(before, w)[chosen := Boosted(before, w)[chosen] - Total(w)]
  }

  datatype Round = Round(weights: map<NodeId, int>, chosen: NodeId)

  /** A run of picks, with the credits before, between and after them. */
  ghost predicate Run(cs: seq<Credits>, rounds: seq<Round>)
  {
    && |cs| == |rounds| + 1
    && forall k :: 0 <= k < |rounds| ==> Picks(cs[k], rounds[k].weights, rounds[k].chosen, cs[k + 1])
  }

  /** A run in which the eligible set and the weights never change, from zero credits. */
  ghost predicate FixedRun(cs: seq<Credits>, picks: seq<NodeId>, w: map<NodeId, int>)
  {
    && Positive(w)
    && |cs| == |picks| + 1
    && Opening(cs[0], w) == (map n | n in w :: 0)
    && forall k :: 0 <= k < |picks| ==> Picks(cs[k], w, picks[k], cs[k + 1])
  }

  lemma {:induction false} ZeroTotal(w: map<NodeId, int>, z: map<NodeId, int>)
    requires z.Keys == w.Keys && forall n :: n in z ==> z[n] == 0
    ensures Total(z) == 0
    decreases |z|
  {
    if z != map[] {
      var n :| n in z;
      TotalWithout(z, n);
      ZeroTotal(w - {n}, z - {n});
    }
  }

  /** A pick neither creates nor destroys credit, whether or not the set changed before it. */
  lemma PickConserves(before: Credits, w: map<NodeId, int>, chosen: NodeId, after: Credits)
    requires Total(before) == 0 && Picks(before, w, chosen, after)
    ensures after.Keys == w.Keys && Total(after) == 0
    ensures Total(Opening(before, w)) == 0 && Total(Boosted(before, w)) == Total(w)
  {
    var opening := Opening(before, w);
    if before.Keys != w.Keys {
      ZeroTotal(w, opening);
    }
    TotalSum(opening, w);
    assert Boosted(before, w) == map n | n in opening :: opening[n] + w[n];
    TotalUpdate(Boosted(before, w), chosen, Boosted(before, w)[chosen] - Total(w));
  }

  /** In every run the credits sum to zero, even when weights or the set of nodes change. */
  lemma {:induction false} CreditsSumToZero(cs: seq<Credits>, rounds: seq<Round>, k: nat)
    requires Run(cs, rounds) && k < |cs| && Total(cs[0]) == 0
    ensures Total(cs[k]) == 0
  {
    if k != 0 {
      CreditsSumToZero(cs, rounds, k - 1);
      PickConserves(cs[k - 1], rounds[k - 1].weights, rounds[k - 1].chosen, cs[k]);
    }
  }

  /** What node n of weight `weight` has earned minus what it has paid over `picks`. */
  ghost function Balance(picks: seq<NodeId>, n: NodeId, weight: int, total: int): int
  {
    if picks == [] then 0
    else
      Balance(picks[..|picks| - 1], n, weight, total) + weight - (if picks[|picks| - 1] == n then total else 0)
  }

  lemma {:induction false} BalanceClosedForm(picks: seq<NodeId>, n: NodeId, weight: int, total: int)
    ensures Balance(picks, n, weight, total) == Times(|picks|, weight) - Times(Count(picks, n), total)
  {
    if picks != [] {
      BalanceClosedForm(picks[..|picks| - 1], n, weight, total);
    }
  }

  /** Credits that sum to zero and leave no node a full total weight in debt. */
  ghost predicate Solvent(c: Credits, w: map<NodeId, int>)
  {
    && c.Keys == w.Keys
    && Total(c) == 0
    && forall n :: n in w ==> -Total(w) < c[n]
  }

  lemma PickKeepsSolvent(before: Credits, w: map<NodeId, int>, chosen: NodeId, after: Credits)
    requires Positive(w) && Picks(before, w, chosen, after)
    requires Solvent(Opening(before, w), w)
    ensures Solvent(after, w)
    ensures forall n :: n in w ==>
      after[n] == Opening(before, w)[n] + w[n] - (if chosen == n then Total(w) else 0)
  {
    var opening := Opening(before, w);
    assert Picks(opening, w, chosen, after);
    PickConserves(opening, w, chosen, after);
    PositiveTotal(w);
    var rich := PositiveSummand(Boosted(before, w));
    assert 0 < Boosted(before, w)[chosen];
  }

  /** The key invariant: after k picks a node's credit is what it earned minus what it
      paid, no node is more than one total weight in debt, and the credits sum to zero. */
  lemma {:induction false} CreditFormula(cs: seq<Credits>, picks: seq<NodeId>, w: map<NodeId, int>, k: nat)
    requires FixedRun(cs, picks, w) && k <= |picks|
    ensures 0 < Total(w)
    ensures Solvent(Opening(cs[k], w), w)
    ensures forall n :: n in w ==> Opening(cs[k], w)[n] == Balance(picks[..k], n, w[n], Total(w))
  {
    PositiveTotal(w);
    if k == 0 {
      ZeroTotal(w, Opening(cs[0], w));
    } else {
      CreditFormula(cs, picks, w, k - 1);
      assert Picks(cs[k - 1], w, picks[k - 1], cs[k]);
      PickKeepsSolvent(cs[k - 1], w, picks[k - 1], cs[k]);
      assert picks[..k][..k - 1] == picks[..k - 1];
    }
  }

  /** Where nobody is a full total weight in debt, nobody is far ahead of its share. */
  lemma CreditCeiling(c: Credits, total: int, n: NodeId)
    requires Total(c) == 0 && n in c
    requires forall i :: i in c ==> -total < c[i]
    ensures 1 <= |c| && c[n] <= -Times(|c| - 1, 1 - total)
    ensures |c| == 1 ==> c[n] == 0
  {
    var others := c - {n};
    assert |others| == |c| - 1 by {
      assert others.Keys == c.Keys - {n};
    }
    TotalWithout(c, n);
    TotalAtLeast(others, 1 - total);
    assert |c| == 1 ==> others == map[];
  }

  lemma {:induction false} DebtOfOthers(others: nat, total: int)
    ensures -Times(others, 1 - total) == Times(others, total) - others
  {
    if others != 0 {
      DebtOfOthers(others - 1, total);
    }
  }

  /** A credit after k picks, `count` of them of this node: its closed form and its limits. */
  ghost predicate Account(total: int, size: nat, k: nat, weight: int, count: nat, credit: int)
  {
    && credit == Times(k, weight) - Times(count, total)
    && 1 <= size
    && -total < credit <= -Times(size - 1, 1 - total)
    && (size == 1 ==> credit == 0)
  }

  lemma AccountOf(c: Credits, picks: seq<NodeId>, total: int, n: NodeId, weight: int)
    requires Total(c) == 0 && n in c && forall i :: i in c ==> -total < c[i]
    requires c[n] == Balance(picks, n, weight, total)
    ensures Account(total, |c|, |picks|, weight, Count(picks, n), c[n])
  {
    BalanceClosedForm(picks, n, weight, total);
    CreditCeiling(c, total, n);
  }

  /** The account of node n after k picks. */
  lemma CreditOf(cs: seq<Credits>, picks: seq<NodeId>, w: map<NodeId, int>, k: nat, n: NodeId) returns (credit: int)
    requires FixedRun(cs, picks, w) && k <= |picks| && n in w
    ensures Account(Total(w), |w|, k, w[n], Count(picks[..k], n), credit)
  {
    CreditFormula(cs, picks, w, k);
    credit := Opening(cs[k], w)[n];
    AccountOf(Opening(cs[k], w), picks[..k], Total(w), n, w[n]);
    assert |Opening(cs[k], w)| == |w|;
  }

  /** `count` picks out of k are close to the share weight / total: less than one total
      weight above it and at most size - 1 total weights below it, a lower bound that is
      strict exactly when there are two nodes or more. */
  ghost predicate NearShare(total: int, size: int, k: int, weight: int, count: int)
  {
    && total * count < k * weight + total
    && k * weight - (size - 1) * total <= total * count
    && (k * weight - (size - 1) * total < total * count <==> 2 <= size)
  }

  /** Every prefix of a run stays near the exact shares. */
  lemma {:induction false} PrefixShare(cs: seq<Credits>, picks: seq<NodeId>, w: map<NodeId, int>, k: nat, n: NodeId)
    requires FixedRun(cs, picks, w) && k <= |picks| && n in w
    ensures NearShare(Total(w), |w|, k, w[n], Count(picks[..k], n))
  {
    var credit := CreditOf(cs, picks, w, k, n);
    ShareBounds(Total(w), |w|, k, w[n], Count(picks[..k], n), credit);
  }

  lemma ShareBounds(total: int, size: nat, k: nat, weight: int, count: nat, credit: int)
    requires Account(total, size, k, weight, count, credit)
    ensures NearShare(total, size, k, weight, count)
  {
    DebtOfOthers(size - 1, total);
    TimesIsProduct(k, weight);
    TimesIsProduct(count, total);
    TimesIsProduct(size - 1, total);
  }

  /** q full cycles: node n is chosen exactly q * w[n] times and every credit is zero again. */
  lemma {:induction false} ExactShares(cs: seq<Credits>, picks: seq<NodeId>, w: map<NodeId, int>, q: nat)
    requires FixedRun(cs, picks, w) && |picks| == q * Total(w)
    ensures forall n :: n in w ==> Count(picks, n) == q * w[n]
    ensures forall n :: n in w ==> Opening(cs[|picks|], w)[n] == 0
  {
    CreditFormula(cs, picks, w, |picks|);
    assert picks[..|picks|] == picks;
    var c := Opening(cs[|picks|], w);
    forall n | n in w
      ensures 0 <= c[n]
      ensures c[n] == 0 ==> Count(picks, n) == q * w[n]
    {
      BalanceClosedForm(picks, n, w[n], Total(w));
      WholeCycles(Total(w), |picks|, q, w[n], Count(picks, n));
    }
    ZeroSum(c);
  }

  lemma WholeCycles(total: int, k: nat, q: int, weight: int, count: nat)
    requires 0 < total && k == q * total && -total < Times(k, weight) - Times(count, total)
    ensures 0 <= Times(k, weight) - Times(count, total)
    ensures Times(k, weight) - Times(count, total) == 0 ==> count == q * weight
  {
    TimesIsProduct(k, weight);
    TimesIsProduct(count, total);
    CycleProduct(total, k, q, weight, count);
    NegativeMultiple(total, q * weight - count);
  }

  lemma CycleProduct(total: int, k: int, q: int, weight: int, count: int)
    requires k == q * total
    ensures k * weight - count * total == total * (q * weight - count)
  {
    calc {
      k * weight - count * total;
      (q * total) * weight - count * total;
      total * (q * weight) - total * count;
      total * (q * weight - count);
    }
  }

  lemma NegativeMultiple(total: int, d: int)
    requires 0 < total
    ensures d <= -1 ==> total * d <= -total
    ensures 0 <= d ==> 0 <= total * d
    ensures 1 <= d ==> total <= total * d
  {
  }

  /** No starvation, from any point of the run: within m picks, as soon as m * w[n]
      exceeds |w| * (W - 1), node n has been chosen. */
  lemma {:induction false} NoStarvation(cs: seq<Credits>, picks: seq<NodeId>, w: map<NodeId, int>, j: nat, m: nat, n: NodeId)
    requires FixedRun(cs, picks, w) && j + m <= |picks| && n in w
    requires |w| * (Total(w) - 1) < m * w[n]
    ensures n in picks[j..j + m]
  {
    var before := CreditOf(cs, picks, w, j, n);
    var after := CreditOf(cs, picks, w, j + m, n);
    if n !in picks[j..j + m] {
      assert picks[..j + m] == picks[..j] + picks[j..j + m];
      CountAppend(picks[..j], picks[j..j + m], n);
      NoOccurrence(picks[j..j + m], n);
      TimesPlus(j, m, w[n]);
      Accrued(Total(w), |w|, m, w[n]);
    }
  }

  lemma Accrued(total: int, size: int, m: nat, weight: int)
    requires 1 <= size && size * (total - 1) < m * weight
    ensures total - 1 - Times(size - 1, 1 - total) < Times(m, weight)
  {
    TimesIsProduct(m, weight);
    TimesIsProduct(size - 1, 1 - total);
    assert (size - 1) * (1 - total) == (total - 1) - size * (total - 1);
  }

  lemma {:induction false} NoOccurrence(s: seq<NodeId>, n: NodeId)
    requires n !in s
    ensures Count(s, n) == 0
  {
    if s != [] {
      NoOccurrence(s[..|s| - 1], n);
    }
  }

  /** The guarantee needs a stable eligible set: when the set differs from pick to pick,
      the credits are forgotten each time and only nodes of the largest weight are chosen. */
  lemma ChangingSetsForget(cs: seq<Credits>, rounds: seq<Round>, k: nat, n: NodeId)
    requires Run(cs, rounds) && k < |rounds| && n in rounds[k].weights
    requires cs[0].Keys != rounds[0].weights.Keys
    requires forall i :: 0 < i < |rounds| ==> rounds[i - 1].weights.Keys != rounds[i].weights.Keys
    ensures rounds[k].chosen in rounds[k].weights
    ensures rounds[k].weights[n] <= rounds[k].weights[rounds[k].chosen]
  {
    assert Picks(cs[k], rounds[k].weights, rounds[k].chosen, cs[k + 1]);
    if k != 0 {
      assert Picks(cs[k - 1], rounds[k - 1].weights, rounds[k - 1].chosen, cs[k]);
      assert cs[k].Keys == rounds[k - 1].weights.Keys;
    }
    var w := rounds[k].weights;
    assert Boosted(cs[k], w)[n] <= Boosted(cs[k], w)[rounds[k].chosen];
  }
}
