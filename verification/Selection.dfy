/** The two selection algorithms that keep state between picks: round robin and smooth weighted
    round robin, as the pool runs them over its eligible nodes. */
module Selection {
  import opened Common
  import opened Sequences
  import opened Sums
  import WRR = WeightedRoundRobin

  ghost predicate DistinctIds(nodes: seq<Load>)
  {
    forall i, j :: 0 <= i < j < |nodes| ==> nodes[i].id != nodes[j].id
  }

  function ById(nodes: seq<Load>): (keyed: seq<Keyed<Load>>)
    ensures |keyed| == |nodes| && forall i :: 0 <= i < |nodes| ==> keyed[i] == Keyed(nodes[i].id, nodes[i])
  {
    seq(|nodes|, i requires 0 <= i < |nodes| => Keyed(nodes[i].id, nodes[i]))
  }

  /** `sorted(eligible, key=node_id)`. */
  function Ordered(nodes: seq<Load>): seq<Load>
  {
    var sorted := Sort(ById(nodes));
    seq(|sorted|, i requires 0 <= i < |sorted| => sorted[i].item)
  }

  lemma OrderedMembers(nodes: seq<Load>)
    ensures |Ordered(nodes)| == |nodes|
    ensures forall n :: n in Ordered(nodes) <==> n in nodes
    ensures forall i, j :: 0 <= i < j < |nodes| ==> Ordered(nodes)[i].id <= Ordered(nodes)[j].id
  {
    var keyed := ById(nodes);
    SortMembers(keyed);
    SortSorted(keyed);
    var sorted := Sort(keyed);
    forall n
      ensures n in Ordered(nodes) <==> n in nodes
    {
      if n in nodes {
        var i :| 0 <= i < |nodes| && nodes[i] == n;
        assert keyed[i] in sorted;
        var j :| 0 <= j < |sorted| && sorted[j] == keyed[i];
        assert Ordered(nodes)[j] == n;
      }
      if n in Ordered(nodes) {
        var j :| 0 <= j < |sorted| && sorted[j].item == n;
        assert sorted[j] in keyed;
      }
    }
    forall i, j | 0 <= i < j < |nodes|
      ensures Ordered(nodes)[i].id <= Ordered(nodes)[j].id
    {
      assert sorted[i] in keyed && sorted[j] in keyed;
    }
  }

  // ---------------------------------------------------------------------------
  // Round robin
  // ---------------------------------------------------------------------------

  /** `k` picks from an unchanged set of `n` nodes, as positions, from the cursor on. */
  function Turns(cursor: nat, n: nat, k: nat): (turns: seq<nat>)
    requires n > 0
    ensures |turns| == k
    decreases k
  {
    if k == 0 then [] else [cursor % n] + Turns((cursor % n + 1) % n, n, k - 1)
  }

  /** Position `c + i` on a circle of n. */
  function Around(c: nat, i: nat, n: nat): int
  {
    if c + i < n then c + i else c + i - n
  }

  lemma Wrap(a: nat, n: nat)
    requires 0 < n && a < 2 * n
    ensures a % n == if a < n then a else a - n
  {
  }

  lemma {:induction false} TurnsAround(c: nat, n: nat, k: nat)
    requires c < n && k <= n
    ensures forall i :: 0 <= i < k ==> Turns(c, n, k)[i] == Around(c, i, n)
    decreases k
  {
    if k > 0 {
      Wrap(c, n);
      Wrap(c + 1, n);
      var rest := Turns((c + 1) % n, n, k - 1);
      TurnsAround((c + 1) % n, n, k - 1);
      forall i | 0 <= i < k
        ensures Turns(c, n, k)[i] == Around(c, i, n)
      {
        if i > 0 {
          assert Turns(c, n, k)[i] == rest[i - 1];
        }
      }
    }
  }

  ghost predicate OnlyAt(turns: seq<nat>, p: nat, i: nat)
  {
    i < |turns| && forall j :: 0 <= j < |turns| ==> (turns[j] == p <==> j == i)
  }

  /** Any n consecutive picks from an unchanged set of n nodes choose each of them exactly once. */
  lemma {:induction false} EachOnce(cursor: nat, n: nat, p: nat) returns (i: nat)
    requires n > 0 && p < n
    ensures OnlyAt(Turns(cursor, n, n), p, i)
  {
    var c := cursor % n;
    Wrap(c, n);
    assert Turns(cursor, n, n) == Turns(c, n, n);
    TurnsAround(c, n, n);
    i := if c <= p then p - c else p - c + n;
  }

  method RoundRobin(cursor: nat, eligible: seq<Load>) returns (chosen: Load, next: nat)
    requires eligible != []
    ensures [cursor % |eligible|] + Turns(next, |eligible|, |eligible|) == Turns(cursor, |eligible|, |eligible| + 1)
    ensures chosen in eligible && |Ordered(eligible)| == |eligible| && chosen == Ordered(eligible)[cursor % |eligible|]
  {
    var ordered := Ordered(eligible);
    OrderedMembers(eligible);
    var index := cursor % |ordered|;
    next := (index + 1) % |ordered|;
    chosen := ordered[index];
  }

  // ---------------------------------------------------------------------------
  // Weighted round robin
  // ---------------------------------------------------------------------------

  function Weights(nodes: seq<Load>): map<NodeId, int>
  {
    if nodes == [] then map[]
    else
      var last := nodes[|nodes| - 1];
      Weights(nodes[..|nodes| - 1])[last.id := Max(1, last.weight)]
  }

  lemma {:induction false} WeightsOf(nodes: seq<Load>)
    ensures forall n :: n in nodes ==> n.id in Weights(nodes)
    ensures forall id :: id in Weights(nodes) ==> 1 <= Weights(nodes)[id] && HasId(nodes, id)
  {
    if nodes != [] {
      var front, last := nodes[..|nodes| - 1], nodes[|nodes| - 1];
      WeightsOf(front);
      assert nodes == front + [last];
      forall id | id in Weights(nodes)
        ensures 1 <= Weights(nodes)[id] && HasId(nodes, id)
      {
        if id != last.id {
          assert id in Weights(front) && HasId(front, id);
          var n :| n in front && n.id == id;
          assert n in nodes;
        } else {
          assert last in nodes;
        }
      }
    }
  }

  ghost predicate HasId(nodes: seq<Load>, id: NodeId)
  {
    exists n :: n in nodes && n.id == id
  }

  /** The larger credit first, then the fewer active requests, then the larger identifier. */
  predicate Before(credits: map<NodeId, int>, a: Load, b: Load)
    requires a.id in credits && b.id in credits
  {
    || credits[a.id] > credits[b.id]
    || (credits[a.id] == credits[b.id] && a.active < b.active)
    || (credits[a.id] == credits[b.id] && a.active == b.active && a.id >= b.id)
  }

  ghost predicate IsBest(credits: map<NodeId, int>, nodes: seq<Load>, chosen: Load)
  {
    && chosen in nodes && chosen.id in credits
    && forall n :: n in nodes ==> n.id in credits && Before(credits, chosen, n)
  }

  /** `w` gives every one of the nodes its own weight, at least 1, and nobody else any. */
  ghost predicate Weighs(w: map<NodeId, int>, nodes: seq<Load>)
  {
    && w.Keys == (set n | n in nodes :: n.id)
    && forall n :: n in nodes ==> w[n.id] == Max(1, n.weight)
  }

  /** Nobody has more credit than the chosen node, of those with as much nobody has fewer active
      requests, and of those with as many nobody has a larger identifier. */
  ghost predicate Foremost(credits: map<NodeId, int>, nodes: seq<Load>, chosen: Load)
  {
    && chosen in nodes && chosen.id in credits
    && forall n :: n in nodes ==> (
         && n.id in credits && credits[n.id] <= credits[chosen.id]
         && (credits[n.id] == credits[chosen.id] ==> chosen.active <= n.active)
         && (credits[n.id] == credits[chosen.id] && n.active == chosen.active ==> n.id <= chosen.id))
  }

  /** One smooth weighted round robin pick, with the nodes' own weights. */
  ghost predicate IsTurn(credits: map<NodeId, int>, eligible: seq<Load>, chosen: Load, after: map<NodeId, int>)
  {
    exists w :: Weighs(w, eligible) && WRR.Picks(credits, w, chosen.id, after) && Foremost(WRR.Boosted(credits, w), eligible, chosen)
  }

  method WeightsAndTotal(ordered: seq<Load>) returns (weights: map<NodeId, int>, total: int)
    requires DistinctIds(ordered)
    ensures weights == Weights(ordered) && total == Total(weights)
  {
    weights, total := map[], 0;
    for i := 0 to |ordered|
      invariant weights == Weights(ordered[..i]) && total == Total(weights)
    {
      var n := ordered[i];
      assert ordered[..i + 1][..i] == ordered[..i];
      WeightsOf(ordered[..i]);
      TotalUpdate(weights, n.id, Max(1, n.weight));
      weights := weights[n.id := Max(1, n.weight)];
      total := total + Max(1, n.weight);
    }
    assert ordered[..|ordered|] == ordered;
  }

  method Boost(credits: map<NodeId, int>, weights: map<NodeId, int>) returns (boosted: map<NodeId, int>)
    ensures boosted == WRR.Boosted(credits, weights)
  {
    var currents := if credits.Keys != weights.Keys then map n | n in weights :: 0 else credits;
    boosted := currents;
    var todo := weights.Keys;
    while todo != {}
      invariant todo <= weights.Keys && HalfBoosted(currents, weights, todo, boosted)
      decreases |todo|
    {
      var n :| n in todo;
      BoostStep(currents, weights, todo, boosted, n);
      boosted := boosted[n := boosted[n] + weights[n]];
      todo := todo - {n};
    }
    FullyBoosted(credits, weights, boosted);
  }

  lemma FullyBoosted(credits: map<NodeId, int>, weights: map<NodeId, int>, boosted: map<NodeId, int>)
    requires HalfBoosted(WRR.Opening(credits, weights), weights, {}, boosted)
    ensures boosted == WRR.Boosted(credits, weights)
  {
  }

  /** The nodes still to do have their old credit, the others have it increased by their weight. */
  ghost predicate HalfBoosted(currents: map<NodeId, int>, weights: map<NodeId, int>, todo: set<NodeId>, boosted: map<NodeId, int>)
  {
    && currents.Keys == weights.Keys && boosted.Keys == weights.Keys
    && forall n :: n in weights ==> boosted[n] == if n in todo then currents[n] else currents[n] + weights[n]
  }

  lemma BoostStep(currents: map<NodeId, int>, weights: map<NodeId, int>, todo: set<NodeId>, boosted: map<NodeId, int>, n: NodeId)
    requires HalfBoosted(currents, weights, todo, boosted) && n in todo && todo <= weights.Keys
    ensures HalfBoosted(currents, weights, todo - {n}, boosted[n := boosted[n] + weights[n]])
  {
  }

  method Best(credits: map<NodeId, int>, ordered: seq<Load>) returns (chosen: Load)
    requires ordered != [] && forall n :: n in ordered ==> n.id in credits
    ensures IsBest(credits, ordered, chosen)
  {
    chosen := ordered[0];
    for i := 1 to |ordered|
      invariant IsBest(credits, ordered[..i], chosen)
    {
      assert ordered[..i + 1] == ordered[..i] + [ordered[i]];
      if Before(credits, ordered[i], chosen) && !Before(credits, chosen, ordered[i]) {
        chosen := ordered[i];
      }
    }
    assert ordered[..|ordered|] == ordered;
  }

  /** One smooth weighted round robin pick; see module WeightedRoundRobin for what runs of it guarantee. */
  method WeightedRoundRobin(credits: map<NodeId, int>, eligible: seq<Load>)
    returns (chosen: Load, after: map<NodeId, int>)
    requires eligible != [] && DistinctIds(eligible)
    ensures IsTurn(credits, eligible, chosen, after)
  {
    var ordered := Ordered(eligible);
    OrderedMembers(eligible);
    OrderedDistinct(eligible);
    chosen, after := PayBest(credits, ordered);
    BestIsTurn(credits, eligible, ordered, chosen, after);
  }

  /** `chosen` is the best of the nodes and pays the total weight. */
  ghost predicate Pays(credits: map<NodeId, int>, ordered: seq<Load>, chosen: Load, after: map<NodeId, int>)
  {
    var w := Weights(ordered);
    var boosted := WRR.Boosted(credits, w);
    IsBest(boosted, ordered, chosen) && after == boosted[chosen.id := boosted[chosen.id] - Total(w)]
  }

  lemma {:induction false} BestIsTurn(credits: map<NodeId, int>, eligible: seq<Load>, ordered: seq<Load>, chosen: Load, after: map<NodeId, int>)
    requires DistinctIds(ordered) && Pays(credits, ordered, chosen, after) && forall n :: n in ordered <==> n in eligible
    ensures IsTurn(credits, eligible, chosen, after)
  {
    var w := Weights(ordered);
    BestPicks(credits, eligible, ordered, chosen);
    WeightsWeigh(ordered);
    SameWeighing(w, ordered, eligible);
    BestIsForemost(WRR.Boosted(credits, w), eligible, chosen);
  }

  lemma {:induction false} SameWeighing(w: map<NodeId, int>, a: seq<Load>, b: seq<Load>)
    requires Weighs(w, a) && forall n :: n in a <==> n in b
    ensures Weighs(w, b)
  {
  }

  lemma {:induction false} BestIsForemost(credits: map<NodeId, int>, nodes: seq<Load>, chosen: Load)
    requires IsBest(credits, nodes, chosen)
    ensures Foremost(credits, nodes, chosen)
  {
  }

  lemma {:induction false} WeightsWeigh(nodes: seq<Load>)
    requires DistinctIds(nodes)
    ensures Weighs(Weights(nodes), nodes)
  {
    if nodes != [] {
      var front, last := nodes[..|nodes| - 1], nodes[|nodes| - 1];
      WeightsWeigh(front);
      assert nodes == front + [last];
      forall n | n in front
        ensures n.id != last.id
      {
        var i :| 0 <= i < |front| && front[i] == n;
        assert nodes[i].id != nodes[|front|].id;
      }
    }
  }

  /** A run of picks: the credits before, between and after them, and the eligible nodes of each, whose
      numbers of active requests may change. */
  ghost predicate TurnsTaken(cs: seq<map<NodeId, int>>, sets: seq<seq<Load>>, chosen: seq<Load>)
  {
    && |cs| == |chosen| + 1 && |sets| == |chosen|
    && forall k :: 0 <= k < |chosen| ==> IsTurn(cs[k], sets[k], chosen[k], cs[k + 1])
  }

  function Ids(nodes: seq<Load>): (ids: seq<NodeId>)
    ensures |ids| == |nodes| && forall i :: 0 <= i < |ids| ==> ids[i] == nodes[i].id
  {
    seq(|nodes|, i requires 0 <= i < |nodes| => nodes[i].id)
  }

  /** Weights are determined by the nodes. */
  lemma OneWeighing(v: map<NodeId, int>, w: map<NodeId, int>, nodes: seq<Load>)
    requires Weighs(v, nodes) && Weighs(w, nodes)
    ensures v == w
  {
    forall id | id in v
      ensures id in w && v[id] == w[id]
    {
      var n :| n in nodes && n.id == id;
    }
  }

  /** Picks from a set whose identifiers and weights do not change are a run of module
      WeightedRoundRobin with exactly the nodes' weights, so everything proved there holds of them. */
  lemma {:induction false} TurnsAreFixedRun(cs: seq<map<NodeId, int>>, sets: seq<seq<Load>>, chosen: seq<Load>, nodes: seq<Load>, w: map<NodeId, int>)
    requires TurnsTaken(cs, sets, chosen) && nodes != [] && Weighs(w, nodes)
    requires forall k :: 0 <= k < |sets| ==> Weighs(w, sets[k])
    requires forall id :: id in WRR.Opening(cs[0], w) ==> WRR.Opening(cs[0], w)[id] == 0
    ensures WRR.FixedRun(cs, Ids(chosen), w)
  {
    assert nodes[0].id in w;
    forall id | id in w
      ensures 1 <= w[id]
    {
      var n :| n in nodes && n.id == id;
    }
    forall k | 0 <= k < |chosen|
      ensures WRR.Picks(cs[k], w, Ids(chosen)[k], cs[k + 1])
    {
      assert IsTurn(cs[k], sets[k], chosen[k], cs[k + 1]);
      var v :| Weighs(v, sets[k]) && WRR.Picks(cs[k], v, chosen[k].id, cs[k + 1]);
      OneWeighing(v, w, sets[k]);
    }
  }

  /** q full cycles of the pool's picks choose each node exactly q * max(1, weight) times. */
  lemma {:induction false} SharesOfTurns(cs: seq<map<NodeId, int>>, sets: seq<seq<Load>>, chosen: seq<Load>, nodes: seq<Load>, w: map<NodeId, int>, q: nat)
    requires TurnsTaken(cs, sets, chosen) && nodes != [] && Weighs(w, nodes)
    requires forall k :: 0 <= k < |sets| ==> Weighs(w, sets[k])
    requires forall id :: id in WRR.Opening(cs[0], w) ==> WRR.Opening(cs[0], w)[id] == 0
    requires |chosen| == q * Total(w)
    ensures forall n :: n in nodes ==> Count(Ids(chosen), n.id) == q * Max(1, n.weight)
  {
    TurnsAreFixedRun(cs, sets, chosen, nodes, w);
    WRR.ExactShares(cs, Ids(chosen), w, q);
  }

  method PayBest(credits: map<NodeId, int>, ordered: seq<Load>) returns (chosen: Load, after: map<NodeId, int>)
    requires ordered != [] && DistinctIds(ordered)
    ensures Pays(credits, ordered, chosen, after)
  {
    var weights, total := WeightsAndTotal(ordered);
    var boosted := Boost(credits, weights);
    AllBoosted(credits, ordered);
    chosen := Best(boosted, ordered);
    after := boosted[chosen.id := boosted[chosen.id] - total];
  }

  lemma AllBoosted(credits: map<NodeId, int>, ordered: seq<Load>)
    ensures forall n :: n in ordered ==> n.id in WRR.Boosted(credits, Weights(ordered))
  {
    WeightsOf(ordered);
  }

  lemma {:induction false} BestPicks(credits: map<NodeId, int>, eligible: seq<Load>, ordered: seq<Load>, chosen: Load)
    requires forall n :: n in ordered <==> n in eligible
    requires var w := Weights(ordered); IsBest(WRR.Boosted(credits, w), ordered, chosen)
    ensures var w := Weights(ordered);
      var boosted := WRR.Boosted(credits, w);
      && IsBest(boosted, eligible, chosen)
      && WRR.Picks(credits, w, chosen.id, boosted[chosen.id := boosted[chosen.id] - Total(w)])
  {
    var w := Weights(ordered);
    var boosted := WRR.Boosted(credits, w);
    WeightsOf(ordered);
    forall id | id in w
      ensures boosted[id] <= boosted[chosen.id]
    {
      assert HasId(ordered, id);
      var n :| n in ordered && n.id == id;
      assert Before(boosted, chosen, n);
    }
  }

  lemma OrderedDistinct(nodes: seq<Load>)
    requires DistinctIds(nodes)
    ensures DistinctIds(Ordered(nodes))
  {
    var keyed, ordered := ById(nodes), Ordered(nodes);
    SortPermutes(keyed);
    SortMembers(keyed);
    forall i, j | 0 <= i < j < |ordered|
      ensures ordered[i].id != ordered[j].id
    {
      var sorted := Sort(keyed);
      if sorted[i].item.id == sorted[j].item.id {
        assert sorted[i] in keyed && sorted[j] in keyed;
        assert sorted[i] == sorted[j];
        TwiceMeansTwo(sorted, i, j);
        OnceInDistinct(nodes, sorted[i]);
        assert false;
      }
    }
  }

  lemma TwiceMeansTwo<T>(s: seq<T>, i: nat, j: nat)
    requires i < j < |s| && s[i] == s[j]
    ensures multiset(s)[s[i]] >= 2
  {
    assert s == s[..i] + [s[i]] + s[i + 1..j] + [s[j]] + s[j + 1..];
  }

  lemma {:induction false} OnceInDistinct(nodes: seq<Load>, x: Keyed<Load>)
    requires DistinctIds(nodes)
    ensures multiset(ById(nodes))[x] <= 1
  {
    if nodes != [] {
      var front, last := nodes[..|nodes| - 1], nodes[|nodes| - 1];
      OnceInDistinct(front, x);
      assert ById(nodes) == ById(front) + [Keyed(last.id, last)];
      if x == Keyed(last.id, last) {
        assert x !in ById(front);
      }
    }
  }

  // ---------------------------------------------------------------------------
  // Least connections, least latency, hybrid score
  // ---------------------------------------------------------------------------

  /** What a node is ordered by: an unknown key comes last, a tie is decided by `tie`. */
  datatype Rank = Rank(unknown: bool, key: real, tie: real)

  predicate Less(a: Rank, b: Rank)
  {
    || (!a.unknown && b.unknown)
    || (a.unknown == b.unknown && a.key < b.key)
    || (a.unknown == b.unknown && a.key == b.key && a.tie < b.tie)
  }

  /** The first of the nodes with the least rank, which Python's `min` finds. */
  ghost predicate IsFirstLeast(nodes: seq<Load>, rank: Load -> Rank, i: nat)
  {
    && i < |nodes|
    && (forall j :: 0 <= j < |nodes| ==> !Less(rank(nodes[j]), rank(nodes[i])))
    && (forall j :: 0 <= j < i ==> Less(rank(nodes[i]), rank(nodes[j])))
  }

  ghost predicate PicksLeast(nodes: seq<Load>, rank: Load -> Rank, chosen: Load)
  {
    exists i: nat :: IsFirstLeast(nodes, rank, i) && chosen == nodes[i]
  }

  method FirstLeast(nodes: seq<Load>, rank: Load -> Rank) returns (chosen: Load)
    requires nodes != []
    ensures PicksLeast(nodes, rank, chosen) && chosen in nodes
  {
    chosen := nodes[0];
    ghost var i: nat := 0;
    for n := 1 to |nodes|
      invariant i < n && chosen == nodes[i]
      invariant forall j :: 0 <= j < n ==> !Less(rank(nodes[j]), rank(nodes[i]))
      invariant forall j :: 0 <= j < i ==> Less(rank(nodes[i]), rank(nodes[j]))
    {
      if Less(rank(nodes[n]), rank(chosen)) {
        chosen, i := nodes[n], n;
      }
    }
    assert IsFirstLeast(nodes, rank, i);
  }

  type Ties = NodeId -> real

  /** Active requests per weight; ties are random. */
  function ByConnections(ties: Ties): Load -> Rank
  {
    (n: Load) => Rank(false, n.active as real / Max(1, n.weight) as real, ties(n.id))
  }

  /** Smoothed latency, unknown ones last; ties are random. */
  function ByLatency(ties: Ties): Load -> Rank
  {
    (n: Load) => Rank(n.latency == 0.0, n.latency, ties(n.id))
  }

  /** The weights of the hybrid score. */
  datatype Scoring = Scoring(capacityWeight: real, latencyWeight: real, reference: real)

  function AtMostOne(x: real): real
  {
    if x < 1.0 then x else 1.0
  }

  function FreeShare(n: Load): real
  {
    1.0 - n.active as real / Max(1, n.capacity) as real
  }

  /** The latency as a share of the reference, at most 1. */
  function Slowness(reference: real, n: Load): real
  {
    if n.latency == 0.0 then 0.0 else AtMostOne(n.latency / (if reference < 1.0 then 1.0 else reference))
  }

  /** Free capacity and low latency count for a node, errors against it. */
  function Value(sc: Scoring, n: Load): real
  {
    sc.capacityWeight * FreeShare(n) + sc.latencyWeight * (1.0 - Slowness(sc.reference, n)) - AtMostOne(n.errorRate)
  }

  /** The value rounded down to four places, plus a little for a weight above 1. */
  function Score(sc: Scoring, n: Load): real
  {
    (Value(sc, n) * 10000.0).Floor as real / 10000.0 + 0.0001 * Max(0, n.weight - 1) as real
  }

  /** The highest score comes first. */
  function ByScore(sc: Scoring): Load -> Rank
  {
    (n: Load) => Rank(false, -Score(sc, n), 0.0)
  }

  /** A node that is worse in no respect has no lower score. */
  lemma {:induction false} ScoreIsMonotone(sc: Scoring, a: Load, b: Load)
    requires 0.0 <= sc.capacityWeight && 0.0 <= sc.latencyWeight
    requires a.capacity == b.capacity && a.active <= b.active && b.weight <= a.weight
    requires 0.0 <= a.latency <= b.latency && a.errorRate <= b.errorRate
    ensures Score(sc, a) >= Score(sc, b)
  {
    Quotients(a.active as real, b.active as real, Max(1, a.capacity) as real);
    Quotients(a.latency, b.latency, if sc.reference < 1.0 then 1.0 else sc.reference);
    Weighed(sc.capacityWeight, FreeShare(b), FreeShare(a),
      sc.latencyWeight, 1.0 - Slowness(sc.reference, b), 1.0 - Slowness(sc.reference, a),
      AtMostOne(b.errorRate), AtMostOne(a.errorRate));
    RoundsDown(Value(sc, b), Value(sc, a));
  }

  /** The score is free capacity and speed, weighed, less the error rate, rounded down by less than a
      ten-thousandth, plus one ten-thousandth for every unit of weight above the first. */
  lemma ScoreIs(sc: Scoring, n: Load)
    ensures
      var free := 1.0 - n.active as real / Max(1, n.capacity) as real;
      var slow := if n.latency == 0.0 then 0.0 else n.latency / (if sc.reference < 1.0 then 1.0 else sc.reference);
      var value := sc.capacityWeight * free + sc.latencyWeight * (1.0 - if slow < 1.0 then slow else 1.0)
        - (if n.errorRate < 1.0 then n.errorRate else 1.0);
      var bonus := 0.0001 * (if n.weight > 1 then n.weight - 1 else 0) as real;
      Score(sc, n) <= value + bonus < Score(sc, n) + 0.0001
  {
    Rounded(Value(sc, n));
  }

  lemma Rounded(x: real)
    ensures (x * 10000.0).Floor as real / 10000.0 <= x < (x * 10000.0).Floor as real / 10000.0 + 0.0001
  {
  }

  lemma Weighed(c: real, x: real, x': real, d: real, y: real, y': real, e: real, e': real)
    requires 0.0 <= c && 0.0 <= d && x <= x' && y <= y' && e' <= e
    ensures c * x + d * y - e <= c * x' + d * y' - e'
  {
    Products(c, x, x');
    Products(d, y, y');
    Together(c * x, c * x', d * y, d * y', e, e');
  }

  lemma Together(p: real, p': real, q: real, q': real, e: real, e': real)
    requires p <= p' && q <= q' && e' <= e
    ensures p + q - e <= p' + q' - e'
  {
  }

  lemma RoundsDown(x: real, y: real)
    requires x <= y
    ensures (x * 10000.0).Floor as real / 10000.0 <= (y * 10000.0).Floor as real / 10000.0
  {
  }

  lemma Quotients(x: real, y: real, d: real)
    requires 0.0 <= x <= y && 1.0 <= d
    ensures 0.0 <= x / d <= y / d
  {
  }

  lemma Products(c: real, x: real, y: real)
    requires 0.0 <= c && x <= y
    ensures c * x <= c * y
  {
  }

  // ---------------------------------------------------------------------------
  // What the choice means, in the nodes' figures
  // ---------------------------------------------------------------------------

  /** The first node with the highest score. */
  ghost predicate IsFirstBest(sc: Scoring, nodes: seq<Load>, i: nat)
  {
    && i < |nodes|
    && (forall j :: 0 <= j < |nodes| ==> Score(sc, nodes[j]) <= Score(sc, nodes[i]))
    && (forall j :: 0 <= j < i ==> Score(sc, nodes[j]) < Score(sc, nodes[i]))
  }

  lemma Ranked(nodes: seq<Load>, rank: Load -> Rank, chosen: Load)
    requires PicksLeast(nodes, rank, chosen)
    ensures chosen in nodes && forall n :: n in nodes ==> !Less(rank(n), rank(chosen))
  {
    var i: nat :| IsFirstLeast(nodes, rank, i) && chosen == nodes[i];
    forall n | n in nodes
      ensures !Less(rank(n), rank(chosen))
    {
      var j :| 0 <= j < |nodes| && nodes[j] == n;
    }
  }

  /** The node at place i in identifier order has i identifiers below it. */
  lemma BelowInOrder(nodes: seq<Load>, i: nat)
    requires i < |nodes| && DistinctIds(nodes) && |Ordered(nodes)| == |nodes|
    ensures |set n | n in nodes && n.id < Ordered(nodes)[i].id| == i
  {
    var ordered := Ordered(nodes);
    OrderedMembers(nodes);
    OrderedDistinct(nodes);
    Firsts(ordered[..i]);
    var below := set n | n in nodes && n.id < ordered[i].id;
    forall n
      ensures n in below <==> n in ordered[..i]
    {
      if n in below {
        var j :| 0 <= j < |ordered| && ordered[j] == n;
        assert j < i;
      }
      if n in ordered[..i] {
        var j :| 0 <= j < i && ordered[j] == n;
        assert ordered[j].id < ordered[i].id;
      }
    }
    assert below == set n | n in ordered[..i];
  }

  lemma {:induction false} Firsts(nodes: seq<Load>)
    requires DistinctIds(nodes)
    ensures |set n | n in nodes| == |nodes|
  {
    if nodes != [] {
      var front, last := nodes[..|nodes| - 1], nodes[|nodes| - 1];
      Firsts(front);
      assert forall i :: 0 <= i < |front| ==> front[i].id == nodes[i].id != nodes[|front|].id;
      assert nodes == front + [last];
      assert (set n | n in nodes) == (set n | n in front) + {last};
    }
  }

  /** Requests in flight per unit of weight. */
  function PerWeight(n: Load): real
  {
    n.active as real / (if n.weight < 1 then 1 else n.weight) as real
  }

  lemma {:induction false} ConnectionsMeans(nodes: seq<Load>, ties: Ties, chosen: Load)
    requires PicksLeast(nodes, ByConnections(ties), chosen)
    ensures chosen in nodes
    ensures forall n :: n in nodes ==> PerWeight(chosen) <= PerWeight(n) && (PerWeight(chosen) == PerWeight(n) ==> ties(chosen.id) <= ties(n.id))
  {
    Ranked(nodes, ByConnections(ties), chosen);
    forall n | n in nodes
      ensures PerWeight(chosen) <= PerWeight(n) && (PerWeight(chosen) == PerWeight(n) ==> ties(chosen.id) <= ties(n.id))
    {
      RankIsPerWeight(ties, n);
      RankIsPerWeight(ties, chosen);
      assert !Less(ByConnections(ties)(n), ByConnections(ties)(chosen));
    }
  }

  lemma RankIsPerWeight(ties: Ties, n: Load)
    ensures ByConnections(ties)(n) == Rank(false, PerWeight(n), ties(n.id))
  {
  }

  lemma {:induction false} LatencyMeans(nodes: seq<Load>, ties: Ties, chosen: Load)
    requires PicksLeast(nodes, ByLatency(ties), chosen)
    ensures chosen in nodes
    ensures forall n :: n in nodes && n.latency != 0.0 ==> chosen.latency != 0.0 && chosen.latency <= n.latency
    ensures forall n :: n in nodes && n.latency == chosen.latency ==> ties(chosen.id) <= ties(n.id)
  {
    Ranked(nodes, ByLatency(ties), chosen);
    forall n | n in nodes && n.latency != 0.0
      ensures chosen.latency != 0.0 && chosen.latency <= n.latency
    {
      assert !Less(ByLatency(ties)(n), ByLatency(ties)(chosen));
    }
    forall n | n in nodes && n.latency == chosen.latency
      ensures ties(chosen.id) <= ties(n.id)
    {
      assert !Less(ByLatency(ties)(n), ByLatency(ties)(chosen));
    }
  }

  lemma {:induction false} ScoreMeans(nodes: seq<Load>, sc: Scoring, chosen: Load)
    requires PicksLeast(nodes, ByScore(sc), chosen)
    ensures chosen in nodes && exists i: nat :: IsFirstBest(sc, nodes, i) && chosen == nodes[i]
  {
    var i: nat :| IsFirstLeast(nodes, ByScore(sc), i) && chosen == nodes[i];
    forall j | 0 <= j < |nodes|
      ensures Score(sc, nodes[j]) <= Score(sc, nodes[i])
    {
      assert !Less(ByScore(sc)(nodes[j]), ByScore(sc)(nodes[i]));
    }
    forall j | 0 <= j < i
      ensures Score(sc, nodes[j]) < Score(sc, nodes[i])
    {
      assert Less(ByScore(sc)(nodes[i]), ByScore(sc)(nodes[j]));
    }
    assert IsFirstBest(sc, nodes, i);
  }
}
