/** The pool of nodes: who is eligible for a request, which one is picked, and what a
    synchronisation with the registry keeps. */
module Balancer {
  import opened Common
  import opened Sequences
  import opened Selection
  import HashRing
  import WRR = WeightedRoundRobin
  import CB = CircuitBreaker
  import opened NodeRuntime
  import opened Windows
  import opened ConsentLifecycle

  type Model = string

  datatype PoolNode = PoolNode(
    load: Load, state: NodeState, routable: bool, breaker: CB.Breaker,
    hour: Hour, maxRequests: int, maxTokens: int, models: set<Model>, statistics: Statistics)

  /** What else the pool keeps of a node's past. */
  datatype Statistics = Statistics(samples: seq<Stamped<Sample>>, lastMinute: seq<Stamped<()>>, total: nat)

  /** One request for a node; `supports` is the model-name matching of the source. */
  datatype Request = Request(
    model: Option<Model>, supports: (set<Model>, Model) -> bool, exclude: set<NodeId>, now: real,
    digest: HashRing.Digest, target: int, ties: Ties)

  datatype Algorithm = RoundRobin | WeightedRoundRobin | LeastConnections | LeastLatency | ConsistentHash | Hybrid(scoring: Scoring)

  datatype PickError = NoHealthyNodes | ModelNotFound

  // ---------------------------------------------------------------------------
  // Eligibility: the specification
  // ---------------------------------------------------------------------------

  predicate Supports(n: PoolNode, r: Request)
  {
    r.model.None? || r.supports(n.models, r.model.value)
  }

  predicate IsCandidate(n: PoolNode, r: Request)
  {
    n.load.id !in r.exclude && n.routable
  }

  /** The breaker lets the request through, the model is offered, the hour's budget is not spent. */
  predicate Admitted(cfg: CB.Config, n: PoolNode, r: Request)
  {
    && IsCandidate(n, r) && CB.Allow(cfg, n.breaker, r.now).1 && Supports(n, r)
    && WithinBudget(Rolled(n.hour, r.now), n.maxRequests, n.maxTokens)
  }

  /** What looking at a node does to it: its breaker is asked, and a probe may be spent, even if
      another filter or the selection then passes the node over. */
  function Visited(cfg: CB.Config, n: PoolNode, r: Request): PoolNode
  {
    if !IsCandidate(n, r) then n
    else
      var asked := CB.Allow(cfg, n.breaker, r.now);
      var seen := n.(breaker := asked.0);
      if asked.1 && Supports(n, r) then seen.(hour := Rolled(n.hour, r.now)) else seen
  }

  function VisitAll(cfg: CB.Config, nodes: seq<PoolNode>, r: Request): seq<PoolNode>
  {
    if nodes == [] then []
    else VisitAll(cfg, nodes[..|nodes| - 1], r) + [Visited(cfg, nodes[|nodes| - 1], r)]
  }

  /** The admitted nodes that are degraded, or that are not, in pool order. */
  function Class(cfg: CB.Config, nodes: seq<PoolNode>, r: Request, degraded: bool): seq<Load>
  {
    if nodes == [] then []
    else
      var last := nodes[|nodes| - 1];
      var front := Class(cfg, nodes[..|nodes| - 1], r, degraded);
      if Admitted(cfg, last, r) && (last.state == Degraded) == degraded then front + [last.load] else front
  }

  function Free(): Load -> bool
  {
    (n: Load) => HasSlot(n)
  }

  /** The free nodes, or all of them if none is free: the caller then waits. */
  function WithCapacity(nodes: seq<Load>): seq<Load>
  {
    var free := Keep(nodes, Free());
    if free == [] then nodes else free
  }

  /** Degraded nodes only when there is no healthy one. */
  function EligibleOf(cfg: CB.Config, nodes: seq<PoolNode>, r: Request): seq<Load>
  {
    var healthy, degraded := Class(cfg, nodes, r, false), Class(cfg, nodes, r, true);
    if healthy != [] then WithCapacity(healthy) else if degraded != [] then WithCapacity(degraded) else []
  }

  ghost predicate UniqueIds(nodes: seq<PoolNode>)
  {
    forall i, j :: 0 <= i < j < |nodes| ==> nodes[i].load.id != nodes[j].load.id
  }

  ghost predicate AdmittedAs(cfg: CB.Config, nodes: seq<PoolNode>, r: Request, degraded: bool, n: Load)
  {
    exists i :: 0 <= i < |nodes| && nodes[i].load == n && Admitted(cfg, nodes[i], r) && (nodes[i].state == Degraded) == degraded
  }

  lemma {:induction false} ClassMembers(cfg: CB.Config, nodes: seq<PoolNode>, r: Request, degraded: bool, n: Load)
    ensures n in Class(cfg, nodes, r, degraded) <==> AdmittedAs(cfg, nodes, r, degraded, n)
  {
    if nodes != [] {
      var front, last := nodes[..|nodes| - 1], nodes[|nodes| - 1];
      ClassMembers(cfg, front, r, degraded, n);
      if AdmittedAs(cfg, front, r, degraded, n) {
        var i :| 0 <= i < |front| && front[i].load == n && Admitted(cfg, front[i], r) && (front[i].state == Degraded) == degraded;
        assert nodes[i] == front[i];
      }
      if AdmittedAs(cfg, nodes, r, degraded, n) && !AdmittedAs(cfg, front, r, degraded, n) {
        var i :| 0 <= i < |nodes| && nodes[i].load == n && Admitted(cfg, nodes[i], r) && (nodes[i].state == Degraded) == degraded;
        assert i == |front|;
      }
      assert nodes[|nodes| - 1] == last;
    }
  }

  /** What eligibility guarantees: every eligible node was admitted; a degraded one only if no
      healthy one was; a full one only if all admitted ones of its class are full. */
  lemma {:induction false} EligibleMeans(cfg: CB.Config, nodes: seq<PoolNode>, r: Request, n: Load)
    requires n in EligibleOf(cfg, nodes, r)
    ensures AdmittedAs(cfg, nodes, r, false, n) || AdmittedAs(cfg, nodes, r, true, n)
    ensures !AdmittedAs(cfg, nodes, r, false, n) ==> Class(cfg, nodes, r, false) == []
    ensures !HasSlot(n) ==> forall m :: m in Class(cfg, nodes, r, !AdmittedAs(cfg, nodes, r, false, n)) ==> !HasSlot(m)
  {
    var healthy, degraded := Class(cfg, nodes, r, false), Class(cfg, nodes, r, true);
    ClassMembers(cfg, nodes, r, false, n);
    ClassMembers(cfg, nodes, r, true, n);
    KeepMembers(healthy, Free());
    KeepMembers(degraded, Free());
    if !HasSlot(n) {
      var group := if healthy != [] then healthy else degraded;
      assert n in group;
      forall m | m in group
        ensures !HasSlot(m)
      {
        assert Free()(m) ==> m in Keep(group, Free());
      }
    }
  }

  // ---------------------------------------------------------------------------
  // Eligibility in the nodes' figures
  // ---------------------------------------------------------------------------

  /** The node may serve the request: in the pool's routable set and not excluded, let through by its
      breaker, offering the model if one is asked for, and with requests and tokens left for the hour,
      which is a new one 3600 seconds after it began; a limit of 0 is none. */
  predicate Able(cfg: CB.Config, n: PoolNode, r: Request)
  {
    && n.routable && n.load.id !in r.exclude
    && (match n.breaker.mode
        case Closed => true
        case Open => cfg.openFor <= r.now - n.breaker.openedAt && 0 < cfg.probes
        case HalfOpen => n.breaker.inFlight < cfg.probes)
    && (match r.model case Some(model) => r.supports(n.models, model) case None => true)
    && (n.maxRequests == 0 || (if r.now - n.hour.startedAt >= 3600.0 then 0 else n.hour.requests) < n.maxRequests)
    && (n.maxTokens == 0 || (if r.now - n.hour.startedAt >= 3600.0 then 0 else n.hour.tokens) < n.maxTokens)
  }

  lemma AdmittedIsAble(cfg: CB.Config, n: PoolNode, r: Request)
    ensures Admitted(cfg, n, r) <==> Able(cfg, n, r)
  {
  }

  /** Some able node is degraded, or is not, and has a free slot or not. */
  ghost predicate SomeAble(cfg: CB.Config, nodes: seq<PoolNode>, r: Request, degraded: bool)
  {
    exists i :: 0 <= i < |nodes| && Able(cfg, nodes[i], r) && (nodes[i].state == Degraded) == degraded
  }

  ghost predicate SomeAbleAndFree(cfg: CB.Config, nodes: seq<PoolNode>, r: Request, degraded: bool)
  {
    exists i :: 0 <= i < |nodes| && Able(cfg, nodes[i], r) && (nodes[i].state == Degraded) == degraded
      && nodes[i].load.active < Max(1, nodes[i].load.capacity)
  }

  /** Exactly the eligible nodes: able; degraded only if no other able one is there; full only if all able
      ones of its kind are. */
  lemma {:induction false} EligibleExactly(cfg: CB.Config, nodes: seq<PoolNode>, r: Request, k: nat)
    requires UniqueIds(nodes) && k < |nodes|
    ensures var n := nodes[k];
      n.load in EligibleOf(cfg, nodes, r) <==>
        && Able(cfg, n, r)
        && (n.state == Degraded ==> !SomeAble(cfg, nodes, r, false))
        && (n.load.active < Max(1, n.load.capacity) || !SomeAbleAndFree(cfg, nodes, r, n.state == Degraded))
  {
    var n := nodes[k];
    ClassIsAble(cfg, nodes, r, false);
    ClassIsAble(cfg, nodes, r, true);
    OneKind(cfg, nodes, r, k, false);
    OneKind(cfg, nodes, r, k, true);
    KeepMembers(Class(cfg, nodes, r, false), Free());
    KeepMembers(Class(cfg, nodes, r, true), Free());
    NothingKept(Class(cfg, nodes, r, n.state == Degraded), Free());
  }

  lemma NothingKept(nodes: seq<Load>, p: Load -> bool)
    ensures Keep(nodes, p) == [] <==> forall n :: n in nodes ==> !p(n)
  {
    KeepMembers(nodes, p);
    if Keep(nodes, p) != [] {
      assert Keep(nodes, p)[0] in Keep(nodes, p);
    }
  }

  /** A node is in the class of its own kind exactly if it is able, and never in the other. */
  lemma {:induction false} OneKind(cfg: CB.Config, nodes: seq<PoolNode>, r: Request, k: nat, degraded: bool)
    requires UniqueIds(nodes) && k < |nodes|
    ensures nodes[k].load in Class(cfg, nodes, r, degraded) <==> Able(cfg, nodes[k], r) && (nodes[k].state == Degraded) == degraded
  {
    ClassMembers(cfg, nodes, r, degraded, nodes[k].load);
    AdmittedIsAble(cfg, nodes[k], r);
    if AdmittedAs(cfg, nodes, r, degraded, nodes[k].load) {
      var i :| 0 <= i < |nodes| && nodes[i].load == nodes[k].load && Admitted(cfg, nodes[i], r) && (nodes[i].state == Degraded) == degraded;
      assert i == k;
    }
  }

  lemma {:induction false} ClassIsAble(cfg: CB.Config, nodes: seq<PoolNode>, r: Request, degraded: bool)
    ensures Class(cfg, nodes, r, degraded) != [] <==> SomeAble(cfg, nodes, r, degraded)
    ensures (exists n :: n in Class(cfg, nodes, r, degraded) && HasSlot(n)) <==> SomeAbleAndFree(cfg, nodes, r, degraded)
  {
    var group := Class(cfg, nodes, r, degraded);
    forall i | 0 <= i < |nodes|
      ensures Able(cfg, nodes[i], r) && (nodes[i].state == Degraded) == degraded ==> nodes[i].load in group
    {
      ClassMembers(cfg, nodes, r, degraded, nodes[i].load);
      AdmittedIsAble(cfg, nodes[i], r);
    }
    forall n | n in group
      ensures exists i :: 0 <= i < |nodes| && nodes[i].load == n && Able(cfg, nodes[i], r) && (nodes[i].state == Degraded) == degraded
    {
      ClassMembers(cfg, nodes, r, degraded, n);
      var i :| 0 <= i < |nodes| && nodes[i].load == n && Admitted(cfg, nodes[i], r) && (nodes[i].state == Degraded) == degraded;
      AdmittedIsAble(cfg, nodes[i], r);
    }
    if group != [] {
      assert group[0] in group;
    }
  }

  function Loads(nodes: seq<PoolNode>): (loads: seq<Load>)
    ensures |loads| == |nodes| && forall i :: 0 <= i < |loads| ==> loads[i] == nodes[i].load
  {
    seq(|nodes|, i requires 0 <= i < |nodes| => nodes[i].load)
  }

  function Among(group: seq<Load>): Load -> bool
  {
    (n: Load) => n in group
  }

  /** The eligible nodes are those of the pool that are eligible, in the order of the pool. */
  lemma {:induction false} EligibleInOrder(cfg: CB.Config, nodes: seq<PoolNode>, r: Request)
    requires UniqueIds(nodes)
    ensures Keep(Loads(nodes), Among(EligibleOf(cfg, nodes, r))) == EligibleOf(cfg, nodes, r)
  {
    var healthy, degraded := Class(cfg, nodes, r, false), Class(cfg, nodes, r, true);
    ClassInOrder(cfg, nodes, r, false);
    ClassInOrder(cfg, nodes, r, true);
    FreeInOrder(Loads(nodes), healthy);
    FreeInOrder(Loads(nodes), degraded);
    HashRing.KeepNone(Loads(nodes), Among([]));
  }

  lemma {:induction false} ClassInOrder(cfg: CB.Config, nodes: seq<PoolNode>, r: Request, degraded: bool)
    requires UniqueIds(nodes)
    ensures Keep(Loads(nodes), Among(Class(cfg, nodes, r, degraded))) == Class(cfg, nodes, r, degraded)
  {
    if nodes != [] {
      var front, last := nodes[..|nodes| - 1], nodes[|nodes| - 1];
      var group, before := Class(cfg, nodes, r, degraded), Class(cfg, front, r, degraded);
      ClassInOrder(cfg, front, r, degraded);
      assert Loads(nodes) == Loads(front) + [last.load];
      KeepSnoc(Loads(front), last.load, Among(group));
      assert forall n :: n in Loads(front) ==> n.id != last.load.id;
      KeepAgrees(Loads(front), Among(before), Among(group));
      OneKind(cfg, nodes, r, |front|, degraded);
      AdmittedIsAble(cfg, last, r);
    }
  }

  lemma {:induction false} FreeInOrder(loads: seq<Load>, group: seq<Load>)
    requires Keep(loads, Among(group)) == group
    ensures Keep(loads, Among(WithCapacity(group))) == WithCapacity(group)
  {
    var free := Keep(group, Free());
    KeepMembers(group, Free());
    if free != [] {
      KeepTwice(loads, Among(group), Free(), Among(free));
    }
  }

  /** Two filters are one that keeps what both keep. */
  lemma {:induction false} KeepTwice(s: seq<Load>, p: Load -> bool, q: Load -> bool, both: Load -> bool)
    requires forall x :: x in s ==> both(x) == (p(x) && q(x))
    ensures Keep(Keep(s, p), q) == Keep(s, both)
  {
    if s != [] {
      var front, last := s[..|s| - 1], s[|s| - 1];
      KeepTwice(front, p, q, both);
      KeepSnoc(Keep(front, p), last, q);
    }
  }

  /** What looking at the pool does to a node, chosen or not: an excluded or unroutable one is left alone; any
      other has its breaker asked; behind the breaker and the model filter an hour that is over begins anew. */
  lemma {:induction false} LookMeans(cfg: CB.Config, nodes: seq<PoolNode>, r: Request, k: nat)
    requires k < |nodes|
    ensures |VisitAll(cfg, nodes, r)| == |nodes|
    ensures var n, seen := nodes[k], VisitAll(cfg, nodes, r)[k];
      && (!n.routable || n.load.id in r.exclude ==> seen == n)
      && (n.routable && n.load.id !in r.exclude ==> seen.breaker == CB.Allow(cfg, n.breaker, r.now).0)
      && seen == n.(breaker := seen.breaker, hour := seen.hour)
      && (seen.hour == n.hour || seen.hour == Hour(r.now, 0, 0))
      && (seen.hour != n.hour ==> r.now - n.hour.startedAt >= 3600.0)
      && (Able(cfg, n, r) ==> r.now - seen.hour.startedAt < 3600.0)
  {
    VisitKeepsIds(cfg, nodes, r);
    AdmittedIsAble(cfg, nodes[k], r);
  }

  /** Nobody is turned away while some node is admitted. */
  lemma {:induction false} EligibleUnlessNone(cfg: CB.Config, nodes: seq<PoolNode>, r: Request)
    ensures EligibleOf(cfg, nodes, r) == [] <==> forall i :: 0 <= i < |nodes| ==> !Admitted(cfg, nodes[i], r)
  {
    forall i | 0 <= i < |nodes| && Admitted(cfg, nodes[i], r)
      ensures EligibleOf(cfg, nodes, r) != []
    {
      ClassMembers(cfg, nodes, r, nodes[i].state == Degraded, nodes[i].load);
      assert AdmittedAs(cfg, nodes, r, nodes[i].state == Degraded, nodes[i].load);
    }
    var eligible := EligibleOf(cfg, nodes, r);
    if eligible != [] {
      EligibleMeans(cfg, nodes, r, eligible[0]);
    }
  }

  lemma {:induction false} ClassDistinct(cfg: CB.Config, nodes: seq<PoolNode>, r: Request, degraded: bool)
    requires UniqueIds(nodes)
    ensures DistinctIds(Class(cfg, nodes, r, degraded))
  {
    if nodes != [] {
      var front, last := nodes[..|nodes| - 1], nodes[|nodes| - 1];
      ClassDistinct(cfg, front, r, degraded);
      var group := Class(cfg, front, r, degraded);
      forall n | n in group
        ensures n.id != last.load.id
      {
        ClassMembers(cfg, front, r, degraded, n);
        var i :| 0 <= i < |front| && front[i].load == n && Admitted(cfg, front[i], r) && (front[i].state == Degraded) == degraded;
        assert nodes[i].load.id != nodes[|front|].load.id;
      }
    }
  }

  lemma {:induction false} KeepDistinct(nodes: seq<Load>, p: Load -> bool)
    requires DistinctIds(nodes)
    ensures DistinctIds(Keep(nodes, p))
  {
    if nodes != [] {
      var front, last := nodes[..|nodes| - 1], nodes[|nodes| - 1];
      KeepDistinct(front, p);
      KeepMembers(front, p);
      assert forall n :: n in front ==> n.id != last.id;
    }
  }

  lemma EligibleDistinct(cfg: CB.Config, nodes: seq<PoolNode>, r: Request)
    requires UniqueIds(nodes)
    ensures DistinctIds(EligibleOf(cfg, nodes, r))
  {
    ClassDistinct(cfg, nodes, r, false);
    ClassDistinct(cfg, nodes, r, true);
    KeepDistinct(Class(cfg, nodes, r, false), Free());
    KeepDistinct(Class(cfg, nodes, r, true), Free());
  }

  // ---------------------------------------------------------------------------
  // Minimal disruption of the whole pick
  // ---------------------------------------------------------------------------

  function Excluding(r: Request, x: NodeId): Request
  {
    r.(exclude := r.exclude + {x})
  }

  lemma {:induction false} ClassWithout(cfg: CB.Config, nodes: seq<PoolNode>, r: Request, degraded: bool, x: NodeId)
    ensures Class(cfg, nodes, Excluding(r, x), degraded) == Keep(Class(cfg, nodes, r, degraded), HashRing.Other(x))
  {
    if nodes != [] {
      var front, last := nodes[..|nodes| - 1], nodes[|nodes| - 1];
      ClassWithout(cfg, front, r, degraded, x);
      KeepSnoc(Class(cfg, front, r, degraded), last.load, HashRing.Other(x));
      assert Admitted(cfg, last, Excluding(r, x)) <==> Admitted(cfg, last, r) && last.load.id != x;
    }
  }

  lemma CapacityWithout(nodes: seq<Load>, x: NodeId, chosen: Load)
    requires chosen in WithCapacity(nodes) && chosen.id != x
    ensures WithCapacity(Keep(nodes, HashRing.Other(x))) == Keep(WithCapacity(nodes), HashRing.Other(x))
    ensures Keep(nodes, HashRing.Other(x)) != []
  {
    var other := HashRing.Other(x);
    KeepSwap(nodes, other, Free());
    KeepMembers(nodes, other);
    KeepMembers(nodes, Free());
    KeepMembers(Keep(nodes, Free()), other);
    assert chosen in nodes && other(chosen);
    if Keep(nodes, Free()) != [] {
      assert chosen in Keep(Keep(nodes, Free()), other);
    }
  }

  /** Taking a node that was not chosen out of the pool does not move the key, through all filters. */
  lemma {:induction false} PoolMinimalDisruption(cfg: CB.Config, nodes: seq<PoolNode>, r: Request, x: NodeId)
    requires EligibleOf(cfg, nodes, r) != [] && HashRing.Choice(r.digest, r.target, EligibleOf(cfg, nodes, r)).id != x
    ensures EligibleOf(cfg, nodes, Excluding(r, x)) != []
    ensures HashRing.Choice(r.digest, r.target, EligibleOf(cfg, nodes, Excluding(r, x)))
      == HashRing.Choice(r.digest, r.target, EligibleOf(cfg, nodes, r))
  {
    var healthy, degraded := Class(cfg, nodes, r, false), Class(cfg, nodes, r, true);
    var eligible := EligibleOf(cfg, nodes, r);
    var chosen := HashRing.Choice(r.digest, r.target, eligible);
    HashRing.ChoiceIsNearestFree(r.digest, r.target, eligible);
    ClassWithout(cfg, nodes, r, false, x);
    ClassWithout(cfg, nodes, r, true, x);
    var group := if healthy != [] then healthy else degraded;
    CapacityWithout(group, x, chosen);
    HashRing.MinimalDisruption(r.digest, r.target, eligible, x);
  }

  /** What a run of looks makes of a node, without a result being recorded in between. */
  function Looked(cfg: CB.Config, n: PoolNode, looks: seq<Request>): PoolNode
  {
    if looks == [] then n else Visited(cfg, Looked(cfg, n, looks[..|looks| - 1]), looks[|looks| - 1])
  }

  lemma SpentLook(cfg: CB.Config, n: PoolNode, r: Request)
    requires n.breaker.mode == CB.HalfOpen && cfg.probes <= n.breaker.inFlight
    ensures var seen := Visited(cfg, n, r);
      seen.breaker.mode == CB.HalfOpen && cfg.probes <= seen.breaker.inFlight && !Admitted(cfg, n, r)
  {
  }

  /** Merely being looked at can use up a half-open node: once the looks have spent its probes, it is
      admitted to no later request, although none was ever sent to it. */
  lemma {:induction false} ProbeSpentByLooking(cfg: CB.Config, n: PoolNode, first: Request, looks: seq<Request>, later: Request)
    requires IsCandidate(n, first) && n.breaker.mode == CB.HalfOpen && cfg.probes <= n.breaker.inFlight + 1
    ensures var seen := Looked(cfg, Visited(cfg, n, first), looks);
      seen.breaker.mode == CB.HalfOpen && cfg.probes <= seen.breaker.inFlight && !Admitted(cfg, seen, later)
  {
    var seen := Looked(cfg, Visited(cfg, n, first), looks);
    if looks != [] {
      ProbeSpentByLooking(cfg, n, first, looks[..|looks| - 1], looks[|looks| - 1]);
      SpentLook(cfg, Looked(cfg, Visited(cfg, n, first), looks[..|looks| - 1]), looks[|looks| - 1]);
    }
    SpentLook(cfg, seen, later);
  }

  // ---------------------------------------------------------------------------
  // The pool
  // ---------------------------------------------------------------------------

  datatype Picked = Chosen(node: Load) | NotPicked(error: PickError)

  class NodePool {
    const cfg: CB.Config
    const algorithm: Algorithm
    var nodes: seq<PoolNode>
    var cursor: nat
    var credits: map<NodeId, int>

    ghost predicate Valid()
      reads this
    {
      UniqueIds(nodes)
    }

    constructor (cfg: CB.Config, algorithm: Algorithm)
      ensures Valid() && nodes == [] && cursor == 0 && credits == map[]
      ensures this.cfg == cfg && this.algorithm == algorithm
    {
      this.cfg, this.algorithm := cfg, algorithm;
      nodes, cursor, credits := [], 0, map[];
    }

    /** Takes over the registry's nodes: known ones keep their counters, the others are dropped. */
    method Sync(candidates: seq<Candidate>) returns (summary: Summary)
      requires Valid() && DistinctCandidates(candidates)
      modifies this`nodes
      ensures Valid() && forall id :: SyncedAt(old(nodes), candidates, nodes, id)
      ensures Summarises(summary, candidates) && summary.total == |nodes|
    {
      var routables: nat, counts: map<NodeState, nat> := 0, map[];
      var seen: set<NodeId> := {};
      assert forall id :: StoringAt(nodes, candidates[..0], nodes, id);
      for i := 0 to |candidates|
        invariant seen == set k | 0 <= k < i :: candidates[k].node.load.id
        invariant Storing(old(nodes), candidates[..i], nodes)
        invariant Summarises(Summary(0, routables, counts), candidates[..i])
      {
        SummaryStep(routables, counts, candidates, i);
        StoreStep(old(nodes), candidates, i, nodes);
        var c := candidates[i];
        seen := seen + {c.node.load.id};
        var n := c.node;
        var previous := Lookup(nodes, n.load.id);
        if previous.Some? {
          var was := previous.value;
          n := n.(load := n.load.(active := was.load.active), breaker := was.breaker);
          n := n.(hour := n.hour.(requests := was.hour.requests, tokens := was.hour.tokens));
          n := n.(statistics := was.statistics);
          n := n.(load := n.load.(errorRate := was.load.errorRate, latency := if was.load.latency != 0.0 then was.load.latency else n.load.latency));
        }
        var routable := IsRoutable(n.state) && c.consentActive;
        if n.state in {Blacklisted, Quarantined, Revoked} {
          routable := false;
        }
        n := n.(routable := routable);
        assert n == Refreshed(previous, c);
        routables := routables + if routable then 1 else 0;
        counts := counts[n.state := CountIn(counts, n.state) + 1];
        nodes := Store(nodes, n);
      }
      assert candidates[..|candidates|] == candidates;
      StaleDropped(old(nodes), candidates, nodes, seen);
      nodes := Keep(nodes, Seen(seen));
      summary := Summary(|nodes|, routables, counts);
    }

    /** Filters the pool in order; every candidate's breaker is asked on the way. */
    method Eligible(r: Request) returns (eligible: seq<Load>)
      modifies this`nodes
      ensures eligible == EligibleOf(cfg, old(nodes), r)
      ensures nodes == VisitAll(cfg, old(nodes), r)
    {
      var healthy: seq<Load>, degraded: seq<Load>, seen: seq<PoolNode> := [], [], [];
      for i := 0 to |nodes|
        invariant nodes == old(nodes)
        invariant seen == VisitAll(cfg, nodes[..i], r)
        invariant healthy == Class(cfg, nodes[..i], r, false) && degraded == Class(cfg, nodes[..i], r, true)
      {
        assert nodes[..i + 1][..i] == nodes[..i];
        var admitted, n := Visit(nodes[i], r);
        seen := seen + [n];
        if admitted {
          if n.state == Degraded {
            degraded := degraded + [n.load];
          } else {
            healthy := healthy + [n.load];
          }
        }
      }
      assert nodes[..|nodes|] == nodes;
      nodes := seen;
      if healthy != [] {
        return WithCapacity(healthy);
      }
      if degraded != [] {
        return WithCapacity(degraded);
      }
      eligible := [];
    }

    method Visit(before: PoolNode, r: Request) returns (admitted: bool, n: PoolNode)
      ensures n == Visited(cfg, before, r) && admitted == Admitted(cfg, before, r)
    {
      n := before;
      if n.load.id in r.exclude || !n.routable {
        return false, n;
      }
      var asked := CB.Allow(cfg, n.breaker, r.now);
      n := n.(breaker := asked.0);
      if !asked.1 {
        return false, n;
      }
      if r.model.Some? && !r.supports(n.models, r.model.value) {
        return false, n;
      }
      n := n.(hour := Rolled(n.hour, r.now));
      admitted := WithinBudget(n.hour, n.maxRequests, n.maxTokens);
    }

    method Offers(r: Request) returns (routable: bool, offering: bool)
      ensures routable <==> exists k :: 0 <= k < |nodes| && nodes[k].routable
      ensures offering <==> exists k :: 0 <= k < |nodes| && nodes[k].routable && Supports(nodes[k], r)
    {
      routable, offering := false, false;
      for i := 0 to |nodes|
        invariant routable <==> exists k :: 0 <= k < i && nodes[k].routable
        invariant offering <==> exists k :: 0 <= k < i && nodes[k].routable && Supports(nodes[k], r)
      {
        routable := routable || nodes[i].routable;
        offering := offering || (nodes[i].routable && (r.model.None? || r.supports(nodes[i].models, r.model.value)));
      }
    }

    /** Picks a node, or says that there is none or that no routable node offers the model. */
    method Pick(r: Request) returns (picked: Picked)
      requires Valid()
      modifies this
      ensures Valid()
      ensures picked == NotPicked(ModelNotFound) <==> OffersNothing(old(nodes), r)
      ensures picked.NotPicked? <==> OffersNothing(old(nodes), r) || EligibleOf(cfg, old(nodes), r) == []
      ensures picked.NotPicked? ==> cursor == old(cursor) && credits == old(credits)
      ensures picked.NotPicked? ==> nodes == if OffersNothing(old(nodes), r) then old(nodes) else VisitAll(cfg, old(nodes), r)
      ensures picked.Chosen? ==> picked.node in EligibleOf(cfg, old(nodes), r) && picked.node.id !in r.exclude
      ensures picked.Chosen? ==> nodes == VisitAll(cfg, old(nodes), r)
      ensures picked.Chosen? ==> Selects(algorithm, EligibleOf(cfg, old(nodes), r), r, old(cursor), old(credits), picked.node, cursor, credits)
    {
      var routable, offering := Offers(r);
      NoRoutableNoneEligible(cfg, nodes, r);
      if !routable {
        NobodyVisited(cfg, nodes, r);
        return NotPicked(NoHealthyNodes);
      }
      if r.model.Some? && !offering {
        return NotPicked(ModelNotFound);
      }
      EligibleDistinct(cfg, nodes, r);
      VisitKeepsUnique(cfg, nodes, r);
      var eligible := Eligible(r);
      if eligible == [] {
        return NotPicked(NoHealthyNodes);
      }
      var chosen := Select(eligible, r);
      EligibleMeans(cfg, old(nodes), r, chosen);
      picked := Chosen(chosen);
    }

    method Select(eligible: seq<Load>, r: Request) returns (chosen: Load)
      requires eligible != [] && DistinctIds(eligible)
      modifies this`cursor, this`credits
      ensures chosen in eligible
      ensures Selects(algorithm, eligible, r, old(cursor), old(credits), chosen, cursor, credits)
    {
      match algorithm {
        case RoundRobin =>
          chosen, cursor := Selection.RoundRobin(cursor, eligible);
        case WeightedRoundRobin =>
          chosen, credits := Selection.WeightedRoundRobin(credits, eligible);
        case ConsistentHash =>
          HashRing.ChoiceIsNearestFree(r.digest, r.target, eligible);
          chosen := HashRing.ConsistentHash(r.digest, r.target, eligible);
        case LeastConnections =>
          chosen := FirstLeast(eligible, ByConnections(r.ties));
        case LeastLatency =>
          chosen := FirstLeast(eligible, ByLatency(r.ties));
        case Hybrid(scoring) =>
          chosen := FirstLeast(eligible, ByScore(scoring));
      }
    }
  }

  // ---------------------------------------------------------------------------
  // Synchronisation
  // ---------------------------------------------------------------------------

  /** A registry row as the pool is given it. */
  datatype Candidate = Candidate(node: PoolNode, consentActive: bool)

  function Lookup(nodes: seq<PoolNode>, id: NodeId): Option<PoolNode>
  {
    if nodes == [] then None
    else if nodes[|nodes| - 1].load.id == id then Some(nodes[|nodes| - 1])
    else Lookup(nodes[..|nodes| - 1], id)
  }

  /** Replaces the node of that identifier where it stands, or appends it. */
  function Store(nodes: seq<PoolNode>, n: PoolNode): seq<PoolNode>
  {
    if nodes == [] then [n]
    else if nodes[|nodes| - 1].load.id == n.load.id then nodes[..|nodes| - 1] + [n]
    else Store(nodes[..|nodes| - 1], n) + [nodes[|nodes| - 1]]
  }

  lemma {:induction false} StoreMembers(nodes: seq<PoolNode>, n: PoolNode)
    requires UniqueIds(nodes)
    ensures forall m :: m in Store(nodes, n) ==> m == n || m in nodes
    ensures UniqueIds(Store(nodes, n))
  {
    if nodes != [] {
      var front, last := nodes[..|nodes| - 1], nodes[|nodes| - 1];
      StoreMembers(front, n);
      assert forall m :: m in front ==> m.load.id != last.load.id;
      assert nodes == front + [last];
    }
  }

  lemma {:induction false} StoreLookup(nodes: seq<PoolNode>, n: PoolNode, id: NodeId)
    ensures Lookup(Store(nodes, n), id) == if id == n.load.id then Some(n) else Lookup(nodes, id)
  {
    if nodes != [] {
      var front, last := nodes[..|nodes| - 1], nodes[|nodes| - 1];
      StoreLookup(front, n, id);
      var stored := Store(front, n);
      assert (stored + [last])[..|stored|] == stored;
      assert (front + [n])[..|front|] == front;
    }
  }

  /** What the pool keeps of a node it already knows: slots, latency, breaker, samples, marks and counts. */
  function Refreshed(previous: Option<PoolNode>, c: Candidate): PoolNode
  {
    var row := c.node.(routable := IsRoutable(c.node.state) && c.consentActive);
    match previous
    case None => row
    case Some(was) => row.(
      load := row.load.(active := was.load.active, errorRate := was.load.errorRate,
        latency := if was.load.latency == 0.0 then row.load.latency else was.load.latency),
      breaker := was.breaker, statistics := was.statistics,
      hour := Hour(row.hour.startedAt, was.hour.requests, was.hour.tokens))
  }

  /** The figures a synchronisation returns. */
  datatype Summary = Summary(total: nat, routable: nat, counts: map<NodeState, nat>)

  function CountIn(counts: map<NodeState, nat>, state: NodeState): nat
  {
    if state in counts then counts[state] else 0
  }

  function RoutableAmong(candidates: seq<Candidate>): nat
  {
    if candidates == [] then 0
    else
      var last := candidates[|candidates| - 1];
      RoutableAmong(candidates[..|candidates| - 1]) + if IsRoutable(last.node.state) && last.consentActive then 1 else 0
  }

  function InState(candidates: seq<Candidate>, state: NodeState): nat
  {
    if candidates == [] then 0
    else InState(candidates[..|candidates| - 1], state) + if candidates[|candidates| - 1].node.state == state then 1 else 0
  }

  /** The routable candidates, and the candidates in each state. */
  ghost predicate Summarises(summary: Summary, candidates: seq<Candidate>)
  {
    && summary.routable == RoutableAmong(candidates)
    && forall state :: CountIn(summary.counts, state) == InState(candidates, state)
  }

  lemma SummaryStep(routables: nat, counts: map<NodeState, nat>, candidates: seq<Candidate>, i: nat)
    requires i < |candidates| && Summarises(Summary(0, routables, counts), candidates[..i])
    ensures var c := candidates[i];
      Summarises(Summary(0, routables + (if IsRoutable(c.node.state) && c.consentActive then 1 else 0),
        counts[c.node.state := CountIn(counts, c.node.state) + 1]), candidates[..i + 1])
  {
    var c, more := candidates[i], candidates[..i + 1];
    assert more[..|more| - 1] == candidates[..i] && more[|more| - 1] == c;
    var after := counts[c.node.state := CountIn(counts, c.node.state) + 1];
    forall state
      ensures CountIn(after, state) == InState(more, state)
    {
      assert CountIn(counts, state) == CountIn(Summary(0, routables, counts).counts, state);
    }
  }

  ghost predicate DistinctCandidates(candidates: seq<Candidate>)
  {
    forall i, j :: 0 <= i < j < |candidates| ==> candidates[i].node.load.id != candidates[j].node.load.id
  }

  /** The pool after a synchronisation, seen through one identifier. */
  ghost predicate SyncedAt(before: seq<PoolNode>, candidates: seq<Candidate>, after: seq<PoolNode>, id: NodeId)
  {
    && (forall i :: 0 <= i < |candidates| && candidates[i].node.load.id == id ==>
          Lookup(after, id) == Some(Refreshed(Lookup(before, id), candidates[i])))
    && ((forall i :: 0 <= i < |candidates| ==> candidates[i].node.load.id != id) ==> Lookup(after, id) == None)
  }

  /** While the candidates are being stored, the other nodes are still as they were. */
  ghost predicate StoringAt(before: seq<PoolNode>, candidates: seq<Candidate>, after: seq<PoolNode>, id: NodeId)
  {
    && (forall i :: 0 <= i < |candidates| && candidates[i].node.load.id == id ==>
          Lookup(after, id) == Some(Refreshed(Lookup(before, id), candidates[i])))
    && ((forall i :: 0 <= i < |candidates| ==> candidates[i].node.load.id != id) ==> Lookup(after, id) == Lookup(before, id))
  }

  function Seen(ids: set<NodeId>): PoolNode -> bool
  {
    (n: PoolNode) => n.load.id in ids
  }

  lemma {:induction false} KeepLookup(nodes: seq<PoolNode>, ids: set<NodeId>, id: NodeId)
    requires UniqueIds(nodes)
    ensures Lookup(Keep(nodes, Seen(ids)), id) == if id in ids then Lookup(nodes, id) else None
    ensures UniqueIds(Keep(nodes, Seen(ids)))
  {
    if nodes != [] {
      var front, last := nodes[..|nodes| - 1], nodes[|nodes| - 1];
      KeepLookup(front, ids, id);
      KeepMembers(front, Seen(ids));
      assert forall m :: m in front ==> m.load.id != last.load.id;
    }
  }

  ghost predicate Storing(before: seq<PoolNode>, candidates: seq<Candidate>, after: seq<PoolNode>)
  {
    UniqueIds(after) && forall id :: StoringAt(before, candidates, after, id)
  }

  lemma StoreStep(before: seq<PoolNode>, candidates: seq<Candidate>, i: nat, after: seq<PoolNode>)
    requires i < |candidates| && DistinctCandidates(candidates)
    requires Storing(before, candidates[..i], after)
    ensures var n := Refreshed(Lookup(after, candidates[i].node.load.id), candidates[i]);
      Storing(before, candidates[..i + 1], Store(after, n))
  {
    var c, done, more := candidates[i], candidates[..i], candidates[..i + 1];
    assert StoringAt(before, done, after, c.node.load.id);
    var n := Refreshed(Lookup(after, c.node.load.id), c);
    assert n.load.id == c.node.load.id;
    var stored := Store(after, n);
    StoreMembers(after, n);
    assert more == done + [c];
    forall id
      ensures StoringAt(before, more, stored, id)
    {
      StoreLookup(after, n, id);
      assert StoringAt(before, done, after, id);
    }
  }

  /** Some node is routable, a model is asked for, and no routable node offers it. */
  ghost predicate OffersNothing(nodes: seq<PoolNode>, r: Request)
  {
    && r.model.Some?
    && (exists i :: 0 <= i < |nodes| && nodes[i].routable)
    && forall i :: 0 <= i < |nodes| && nodes[i].routable ==> !Supports(nodes[i], r)
  }

  /** What each algorithm chooses and what it keeps for the next pick. */
  ghost predicate Selects(algorithm: Algorithm, eligible: seq<Load>, r: Request, cursor: nat, credits: map<NodeId, int>,
      chosen: Load, nextCursor: nat, nextCredits: map<NodeId, int>)
    requires eligible != []
  {
    match algorithm
    case RoundRobin =>
      && |Ordered(eligible)| == |eligible| && chosen == Ordered(eligible)[cursor % |eligible|] && nextCredits == credits
      && [cursor % |eligible|] + Turns(nextCursor, |eligible|, |eligible|) == Turns(cursor, |eligible|, |eligible| + 1)
    case WeightedRoundRobin => IsTurn(credits, eligible, chosen, nextCredits) && nextCursor == cursor
    case ConsistentHash =>
      chosen == HashRing.Choice(r.digest, r.target, eligible) && nextCursor == cursor && nextCredits == credits
    case LeastConnections => PicksLeast(eligible, ByConnections(r.ties), chosen) && nextCursor == cursor && nextCredits == credits
    case LeastLatency => PicksLeast(eligible, ByLatency(r.ties), chosen) && nextCursor == cursor && nextCredits == credits
    case Hybrid(scoring) => PicksLeast(eligible, ByScore(scoring), chosen) && nextCursor == cursor && nextCredits == credits
  }

  /** What that means for the chosen node, in the figures of the nodes: fewest requests per weight; lowest
      latency, an unknown one last, a tie in either settled by the random numbers; highest score, the first of several. Round robin takes the node with
      as many identifiers below it as the cursor says. */
  lemma {:induction false} SelectionMeans(algorithm: Algorithm, eligible: seq<Load>, r: Request, cursor: nat, credits: map<NodeId, int>,
      chosen: Load, nextCursor: nat, nextCredits: map<NodeId, int>)
    requires eligible != [] && DistinctIds(eligible)
    requires Selects(algorithm, eligible, r, cursor, credits, chosen, nextCursor, nextCredits)
    ensures chosen in eligible
    ensures algorithm.RoundRobin? ==> |set n | n in eligible && n.id < chosen.id| == cursor % |eligible|
    ensures algorithm.LeastConnections? ==>
      forall n :: n in eligible ==> PerWeight(chosen) <= PerWeight(n) && (PerWeight(chosen) == PerWeight(n) ==> r.ties(chosen.id) <= r.ties(n.id))
    ensures algorithm.LeastLatency? ==>
      && (forall n :: n in eligible && n.latency != 0.0 ==> chosen.latency != 0.0 && chosen.latency <= n.latency)
      && (forall n :: n in eligible && n.latency == chosen.latency ==> r.ties(chosen.id) <= r.ties(n.id))
    ensures algorithm.Hybrid? ==> exists i: nat :: IsFirstBest(algorithm.scoring, eligible, i) && chosen == eligible[i]
    ensures algorithm.ConsistentHash? && (exists n :: n in eligible && n.active < Max(1, n.capacity)) ==>
      chosen.active < Max(1, chosen.capacity)
    ensures algorithm.WeightedRoundRobin? ==> IsTurn(credits, eligible, chosen, nextCredits)
  {
    match algorithm
    case RoundRobin =>
      OrderedMembers(eligible);
      BelowInOrder(eligible, cursor % |eligible|);
    case WeightedRoundRobin =>
    case ConsistentHash => HashRing.ChoiceIsNearestFree(r.digest, r.target, eligible);
    case LeastConnections => ConnectionsMeans(eligible, r.ties, chosen);
    case LeastLatency => LatencyMeans(eligible, r.ties, chosen);
    case Hybrid(scoring) => ScoreMeans(eligible, scoring, chosen);
  }

  /** What a synchronisation makes of a row: what the registry decides comes from the row; requests in flight,
      breaker, statistics and the counts of the hour survive; so does a latency that is known. */
  lemma {:induction false} SyncMeans(before: seq<PoolNode>, candidates: seq<Candidate>, after: seq<PoolNode>, i: nat)
    requires i < |candidates| && SyncedAt(before, candidates, after, candidates[i].node.load.id)
    ensures var row, id := candidates[i].node, candidates[i].node.load.id;
      && Lookup(after, id).Some?
      && var n := Lookup(after, id).value;
      && (n.routable <==> candidates[i].consentActive && (row.state == Verified || row.state == Healthy || row.state == Degraded))
      && n.state == row.state && n.load.weight == row.load.weight && n.load.capacity == row.load.capacity
      && n.models == row.models && n.maxRequests == row.maxRequests && n.maxTokens == row.maxTokens
      && n.hour.startedAt == row.hour.startedAt
      && match Lookup(before, id)
         case None => n == row.(routable := n.routable)
         case Some(was) =>
           && n.load.active == was.load.active && n.breaker == was.breaker && n.statistics == was.statistics
           && n.hour.requests == was.hour.requests && n.hour.tokens == was.hour.tokens && n.load.errorRate == was.load.errorRate
           && n.load.latency == (if was.load.latency != 0.0 then was.load.latency else row.load.latency)
  {
  }

  /** The returned figures, counted by places. */
  lemma {:induction false} SummaryMeans(summary: Summary, candidates: seq<Candidate>)
    requires Summarises(summary, candidates)
    ensures summary.routable
      == |set i: nat | i < |candidates| && candidates[i].consentActive && candidates[i].node.state in {Verified, Healthy, Degraded}|
    ensures forall state :: CountIn(summary.counts, state) == |set i: nat | i < |candidates| && candidates[i].node.state == state|
  {
    RoutableCount(candidates);
    forall state
      ensures CountIn(summary.counts, state) == |set i: nat | i < |candidates| && candidates[i].node.state == state|
    {
      StateCount(candidates, state);
    }
  }

  function RoutableAt(candidates: seq<Candidate>): set<nat>
  {
    set i: nat | i < |candidates| && candidates[i].consentActive && candidates[i].node.state in {Verified, Healthy, Degraded}
  }

  lemma {:induction false} RoutableCount(candidates: seq<Candidate>)
    ensures RoutableAmong(candidates) == |RoutableAt(candidates)|
  {
    if candidates != [] {
      var front, last := candidates[..|candidates| - 1], candidates[|candidates| - 1];
      RoutableCount(front);
      assert RoutableAt(candidates) == if IsRoutable(last.node.state) && last.consentActive then RoutableAt(front) + {|front|} else RoutableAt(front);
    }
  }

  function StateAt(candidates: seq<Candidate>, state: NodeState): set<nat>
  {
    set i: nat | i < |candidates| && candidates[i].node.state == state
  }

  lemma {:induction false} StateCount(candidates: seq<Candidate>, state: NodeState)
    ensures InState(candidates, state) == |StateAt(candidates, state)|
  {
    if candidates != [] {
      var front, last := candidates[..|candidates| - 1], candidates[|candidates| - 1];
      StateCount(front, state);
      assert StateAt(candidates, state) == if last.node.state == state then StateAt(front, state) + {|front|} else StateAt(front, state);
    }
  }

  lemma StaleDropped(before: seq<PoolNode>, candidates: seq<Candidate>, stored: seq<PoolNode>, seen: set<NodeId>)
    requires Storing(before, candidates, stored)
    requires seen == set k | 0 <= k < |candidates| :: candidates[k].node.load.id
    ensures UniqueIds(Keep(stored, Seen(seen)))
    ensures forall id :: SyncedAt(before, candidates, Keep(stored, Seen(seen)), id)
  {
    forall id
      ensures SyncedAt(before, candidates, Keep(stored, Seen(seen)), id)
    {
      assert StoringAt(before, candidates, stored, id);
      KeepLookup(stored, seen, id);
    }
    KeepLookup(stored, seen, 0);
  }

  lemma NoRoutableNoneEligible(cfg: CB.Config, nodes: seq<PoolNode>, r: Request)
    ensures (forall i :: 0 <= i < |nodes| ==> !nodes[i].routable || !Supports(nodes[i], r)) ==> EligibleOf(cfg, nodes, r) == []
  {
    EligibleUnlessNone(cfg, nodes, r);
  }

  /** Nothing happens to nodes that are all out of the routable set. */
  lemma {:induction false} NobodyVisited(cfg: CB.Config, nodes: seq<PoolNode>, r: Request)
    requires forall i :: 0 <= i < |nodes| ==> !nodes[i].routable
    ensures VisitAll(cfg, nodes, r) == nodes
  {
    VisitKeepsIds(cfg, nodes, r);
  }

  lemma VisitKeepsUnique(cfg: CB.Config, nodes: seq<PoolNode>, r: Request)
    requires UniqueIds(nodes)
    ensures UniqueIds(VisitAll(cfg, nodes, r))
  {
    VisitKeepsIds(cfg, nodes, r);
  }

  lemma {:induction false} VisitKeepsIds(cfg: CB.Config, nodes: seq<PoolNode>, r: Request)
    ensures |VisitAll(cfg, nodes, r)| == |nodes|
    ensures forall i :: 0 <= i < |nodes| ==> VisitAll(cfg, nodes, r)[i] == Visited(cfg, nodes[i], r)
  {
    if nodes != [] {
      VisitKeepsIds(cfg, nodes[..|nodes| - 1], r);
    }
  }
}
