/** The registry as the services update it: rows, consents and the pool's runtimes, changed in
    place. Every method is proved to be a step (or a run of steps) of module ConsentLifecycle. */
module Registry {
  import opened Common
  import opened Sequences
  import opened ConsentLifecycle
  import opened Windows
  import CB = CircuitBreaker
  import NR = NodeRuntime

  /** A finding with its priority, negated so that the strongest sorts first. */
  type Signal = Keyed<NodeState>

  const BLACKLIST := Keyed(-40, Blacklisted)
  const QUARANTINE := Keyed(-30, Quarantined)
  const UNHEALTHY := Keyed(-20, Unhealthy)
  const DEGRADED := Keyed(-10, Degraded)

  ghost predicate Known(signals: seq<Signal>)
  {
    forall x :: x in signals ==> x == BLACKLIST || x == QUARANTINE || x == UNHEALTHY || x == DEGRADED
  }

  /** Sorting by priority puts the strongest finding first. */
  lemma StrongestFirst(signals: seq<Signal>)
    requires Known(signals) && signals != []
    ensures |Sort(signals)| == |signals|
    ensures Sort(signals)[0].item ==
      if BLACKLIST in signals then Blacklisted
      else if QUARANTINE in signals then Quarantined
      else if UNHEALTHY in signals then Unhealthy
      else Degraded
  {
    SortSorted(signals);
    SortMembers(signals);
    var first := Sort(signals)[0];
    assert first in signals;
    forall x | x in signals
      ensures first.key <= x.key
    {
      assert x in Sort(signals);
    }
  }

  /** What the active and passive checks of one run collect. */
  datatype Collected = Collected(signals: seq<Signal>, executed: nat, passed: nat, liveness: nat, readiness: nat)

  /** The finding of a check that counts failures. */
  function Raised(ran: bool, a: Answer, failures: nat, threshold: int, signal: Signal): seq<Signal>
  {
    if !ran || a.Passed? then []
    else if AuthError(a) then [BLACKLIST]
    else if failures + 1 >= threshold then [signal]
    else []
  }

  method CheckLiveness(s: Settings, n: Node, forced: bool, f: Findings) returns (c: Collected)
    ensures c.liveness == Counted(LivenessRan(forced, f), f.liveness, n.livenessFailures)
    ensures c.readiness == n.readinessFailures
    ensures c.signals == Raised(LivenessRan(forced, f), f.liveness, n.livenessFailures, s.livenessThreshold, UNHEALTHY)
    ensures c.executed == (if LivenessRan(forced, f) then 1 else 0)
    ensures c.passed == (if LivenessRan(forced, f) && f.liveness.Passed? then 1 else 0)
  {
    c := Collected([], 0, 0, n.livenessFailures, n.readinessFailures);
    if forced || f.livenessDue {
      c := c.(executed := c.executed + 1);
      if f.liveness.Passed? {
        c := c.(passed := c.passed + 1, liveness := 0);
      } else {
        c := c.(liveness := c.liveness + 1);
        if f.liveness.status == 401 || f.liveness.status == 403 {
          c := c.(signals := c.signals + [BLACKLIST]);
        } else if c.liveness >= s.livenessThreshold {
          c := c.(signals := c.signals + [UNHEALTHY]);
        }
      }
    }
  }

  method CheckReadiness(s: Settings, n: Node, forced: bool, f: Findings, before: Collected) returns (c: Collected)
    requires before.readiness == n.readinessFailures
    ensures c.liveness == before.liveness
    ensures c.readiness == Counted(ReadinessRan(forced, f), f.readiness, n.readinessFailures)
    ensures c.signals
      == before.signals + Raised(ReadinessRan(forced, f), f.readiness, n.readinessFailures, s.readinessThreshold, DEGRADED)
    ensures c.executed == before.executed + (if ReadinessRan(forced, f) then 1 else 0)
    ensures c.passed == before.passed + (if ReadinessRan(forced, f) && f.readiness.Passed? then 1 else 0)
  {
    c := before;
    if forced || f.readinessDue {
      c := c.(executed := c.executed + 1);
      if f.readiness.Passed? {
        c := c.(passed := c.passed + 1, readiness := 0);
      } else {
        c := c.(readiness := c.readiness + 1);
        if f.readiness.status == 401 || f.readiness.status == 403 {
          c := c.(signals := c.signals + [BLACKLIST]);
        } else if c.readiness >= s.readinessThreshold {
          c := c.(signals := c.signals + [DEGRADED]);
        }
      }
    }
  }

  datatype Standing = Active | Broken | Inconclusive

  /** The consent re-check; a lapsed consent is marked as it is found. */
  method ConsentStanding(n: Node, f: Findings, now: real) returns (standing: Standing, consent: Option<Consent>)
    ensures standing == Broken <==> ConsentBroken(n, f, now)
    ensures standing == Active <==> ConsentConfirmed(n, f, now)
    ensures consent == if ExpiryFound(n, now) then Some(n.consent.value.(status := Expired)) else n.consent
  {
    consent := n.consent;
    if n.consent.None? || n.consent.value.status != Proven {
      return Broken, consent;
    }
    var expires := n.consent.value.expires;
    if expires.Some? && expires.value <= now {
      return Broken, Some(n.consent.value.(status := Expired));
    }
    if expires.None? {
      return Broken, consent;
    }
    match f.proof {
      case Good => standing := Active;
      case Unreachable => standing := Inconclusive;
      case Bad => standing := Broken;
    }
  }

  function BrokenSignal(n: Node, forced: bool, f: Findings, now: real): seq<Signal>
  {
    if ConsentRan(forced, f) && ConsentBroken(n, f, now) then [QUARANTINE] else []
  }

  method CheckConsent(n: Node, forced: bool, f: Findings, now: real, before: Collected) returns (c: Collected, consent: Option<Consent>)
    ensures c.liveness == before.liveness && c.readiness == before.readiness
    ensures c.signals == before.signals + BrokenSignal(n, forced, f, now)
    ensures c.executed == before.executed + (if ConsentRan(forced, f) then 1 else 0)
    ensures c.passed == before.passed + (if ConsentRan(forced, f) && ConsentConfirmed(n, f, now) then 1 else 0)
    ensures consent == if ConsentRan(forced, f) && ExpiryFound(n, now) then Some(n.consent.value.(status := Expired)) else n.consent
  {
    c, consent := before, n.consent;
    if forced || f.consentDue {
      var standing;
      standing, consent := ConsentStanding(n, f, now);
      c := c.(executed := c.executed + 1);
      if standing == Active {
        c := c.(passed := c.passed + 1);
      } else if standing == Broken {
        c := c.(signals := c.signals + [QUARANTINE]);
      }
    }
  }

  method CheckFunctional(f: Findings, before: Collected) returns (c: Collected)
    ensures c.liveness == before.liveness && c.readiness == before.readiness
    ensures c.signals == before.signals + (if f.functionalDue && AuthError(f.functional) then [BLACKLIST] else [])
    ensures c.executed == before.executed + (if f.functionalDue then 1 else 0)
    ensures c.passed == before.passed + (if f.functionalDue && f.functional.Passed? then 1 else 0)
  {
    c := before;
    if f.functionalDue {
      c := c.(executed := c.executed + 1);
      if f.functional.Passed? {
        c := c.(passed := c.passed + 1);
      } else if f.functional.status == 401 || f.functional.status == 403 {
        c := c.(signals := c.signals + [BLACKLIST]);
      }
    }
  }

  method PassiveSignals(s: Settings, state: NodeState, p: Passive) returns (signals: seq<Signal>)
    ensures PassiveResolves(s, state, p, signals)
  {
    signals := [];
    if p.authError {
      signals := signals + [BLACKLIST];
    } else if p.errorRate > s.errorThreshold && (state == Verified || state == Healthy) {
      signals := signals + [DEGRADED];
    } else if p.errorRate > s.errorThreshold && state == Degraded {
      signals := signals + [UNHEALTHY];
    }
    if p.timeouts >= s.livenessThreshold && (state == Verified || state == Healthy) {
      signals := signals + [DEGRADED];
    }
  }

  method FindRefusal(samples: seq<Stamped<NR.Sample>>) returns (refused: bool)
    ensures refused == HasRefusal(samples)
  {
    refused := false;
    for i := 0 to |samples|
      invariant refused <==> exists k :: 0 <= k < i && NR.IsRefusal(samples[k].item)
    {
      refused := refused || NR.IsRefusal(samples[i].item);
    }
    assert forall k :: 0 <= k < |samples| ==> samples[k] in samples;
  }

  /** All checks of one run, in order. */
  method RunChecks(s: Settings, n: Node, forced: bool, f: Findings, now: real) returns (c: Collected, consent: Option<Consent>)
    ensures Resolves(s, n, forced, f, now, c.signals)
    ensures c.executed > 0 && c.passed == c.executed <==> AllPassed(n, forced, f, now)
    ensures c.liveness == Counted(LivenessRan(forced, f), f.liveness, n.livenessFailures)
    ensures c.readiness == Counted(ReadinessRan(forced, f), f.readiness, n.readinessFailures)
    ensures consent == if ConsentRan(forced, f) && ExpiryFound(n, now) then Some(n.consent.value.(status := Expired)) else n.consent
  {
    c := CheckLiveness(s, n, forced, f);
    c := CheckReadiness(s, n, forced, f, c);
    c, consent := CheckConsent(n, forced, f, now, c);
    c := CheckFunctional(f, c);
    var passive: seq<Signal> := [];
    if forced && n.runtime.Some? {
      passive := PassiveSignals(s, n.runtime.value.state, PassiveOf(s, n.runtime.value, now));
    }
    c := c.(signals := c.signals + passive);
    PartsResolve(s, n, forced, f, now, BrokenSignal(n, forced, f, now), passive, c.signals);
  }

  /** The collected findings are the ones the specification names. */
  ghost predicate Resolves(s: Settings, n: Node, forced: bool, f: Findings, now: real, signals: seq<Signal>)
  {
    && Known(signals)
    && (BLACKLIST in signals <==> FoundAuthError(s, n, forced, f, now))
    && (QUARANTINE in signals <==> ConsentRan(forced, f) && ConsentBroken(n, f, now))
    && (!FoundAuthError(s, n, forced, f, now) ==> (UNHEALTHY in signals <==> FoundUnhealthy(s, n, forced, f, now)))
    && (!FoundAuthError(s, n, forced, f, now) ==> (DEGRADED in signals <==> FoundDegraded(s, n, forced, f, now)))
  }

  ghost predicate PassiveResolves(s: Settings, state: NodeState, p: Passive, signals: seq<Signal>)
  {
    && Known(signals)
    && (BLACKLIST in signals <==> p.authError)
    && QUARANTINE !in signals
    && (UNHEALTHY in signals <==> !p.authError && p.errorRate > s.errorThreshold && state == Degraded)
    && (DEGRADED in signals <==> (
          state in {Verified, Healthy}
          && ((!p.authError && p.errorRate > s.errorThreshold) || p.timeouts >= s.livenessThreshold)))
  }

  /** Which findings a counting check raised. */
  ghost predicate RaisedOnly(signals: seq<Signal>, auth: bool, threshold: bool, signal: Signal)
  {
    && Known(signals) && QUARANTINE !in signals
    && (BLACKLIST in signals <==> auth)
    && (UNHEALTHY in signals <==> threshold && signal == UNHEALTHY)
    && (DEGRADED in signals <==> threshold && signal == DEGRADED)
  }

  lemma RaisedHas(ran: bool, a: Answer, failures: nat, threshold: int, signal: Signal)
    requires signal == UNHEALTHY || signal == DEGRADED
    ensures RaisedOnly(Raised(ran, a, failures, threshold, signal), ran && AuthError(a),
      ran && a.Refused? && !AuthError(a) && failures + 1 >= threshold, signal)
  {
  }

  lemma PartsResolve(s: Settings, n: Node, forced: bool, f: Findings, now: real, broken: seq<Signal>, passive: seq<Signal>, signals: seq<Signal>)
    requires broken == BrokenSignal(n, forced, f, now)
    requires if PassiveRan(n, forced) then PassiveResolves(s, n.runtime.value.state, PassiveOf(s, n.runtime.value, now), passive) else passive == []
    requires var live := Raised(LivenessRan(forced, f), f.liveness, n.livenessFailures, s.livenessThreshold, UNHEALTHY);
      var ready := Raised(ReadinessRan(forced, f), f.readiness, n.readinessFailures, s.readinessThreshold, DEGRADED);
      var functional := if f.functionalDue && AuthError(f.functional) then [BLACKLIST] else [];
      signals == live + ready + broken + functional + passive
    ensures Resolves(s, n, forced, f, now, signals)
  {
    var live := Raised(LivenessRan(forced, f), f.liveness, n.livenessFailures, s.livenessThreshold, UNHEALTHY);
    var ready := Raised(ReadinessRan(forced, f), f.readiness, n.readinessFailures, s.readinessThreshold, DEGRADED);
    var functional := if f.functionalDue && AuthError(f.functional) then [BLACKLIST] else [];
    RaisedHas(LivenessRan(forced, f), f.liveness, n.livenessFailures, s.livenessThreshold, UNHEALTHY);
    RaisedHas(ReadinessRan(forced, f), f.readiness, n.readinessFailures, s.readinessThreshold, DEGRADED);
    MembersOfParts(live, ready, broken, functional, passive);
    PartsCombine(s, n, forced, f, now, live, ready, broken, functional, passive, signals);
  }

  ghost predicate HasAny(x: Signal, a: seq<Signal>, b: seq<Signal>, c: seq<Signal>, d: seq<Signal>, e: seq<Signal>)
  {
    x in a || x in b || x in c || x in d || x in e
  }

  ghost predicate SameMembers(signals: seq<Signal>, a: seq<Signal>, b: seq<Signal>, c: seq<Signal>, d: seq<Signal>, e: seq<Signal>)
  {
    forall x: Signal :: x in signals <==> HasAny(x, a, b, c, d, e)
  }

  lemma MembersOfParts(a: seq<Signal>, b: seq<Signal>, c: seq<Signal>, d: seq<Signal>, e: seq<Signal>)
    ensures SameMembers(a + b + c + d + e, a, b, c, d, e)
  {
  }

  lemma PartsCombine(s: Settings, n: Node, forced: bool, f: Findings, now: real,
      live: seq<Signal>, ready: seq<Signal>, broken: seq<Signal>, functional: seq<Signal>, passive: seq<Signal>, signals: seq<Signal>)
    requires SameMembers(signals, live, ready, broken, functional, passive)
    requires RaisedOnly(live, LivenessRan(forced, f) && AuthError(f.liveness),
      LivenessRan(forced, f) && f.liveness.Refused? && !AuthError(f.liveness) && n.livenessFailures + 1 >= s.livenessThreshold, UNHEALTHY)
    requires RaisedOnly(ready, ReadinessRan(forced, f) && AuthError(f.readiness),
      ReadinessRan(forced, f) && f.readiness.Refused? && !AuthError(f.readiness) && n.readinessFailures + 1 >= s.readinessThreshold, DEGRADED)
    requires broken == BrokenSignal(n, forced, f, now)
    requires functional == if f.functionalDue && AuthError(f.functional) then [BLACKLIST] else []
    requires if PassiveRan(n, forced) then PassiveResolves(s, n.runtime.value.state, PassiveOf(s, n.runtime.value, now), passive) else passive == []
    ensures Resolves(s, n, forced, f, now, signals)
  {
  }

  class Registry {
    const settings: Settings
    var nodes: map<NodeId, Node>
    ghost var log: seq<Event>

    constructor (settings: Settings)
      ensures this.settings == settings && Current() == EMPTY
    {
      this.settings := settings;
      nodes, log := map[], [];
    }

    ghost function Current(): World
      reads this
    {
      World(nodes, log)
    }

    method Enroll(id: NodeId) returns (r: Reply)
      modifies this
      ensures (Current(), r) == Apply(settings, old(Current()), ConsentLifecycle.Enroll(id))
    {
      if id in nodes {
        return InvalidRequest;
      }
      var row := Node(PendingConsent, None, false, 0, 0, None);
      row := row.(consent := Some(Consent(Sent, None)));
      row := row.(status := ConsentChallengeSent);
      nodes := nodes[id := row];
      log := log + [Enrolled(id)];
      r := Done;
    }

    method Verify(id: NodeId, proof: Proof, now: real) returns (r: Reply)
      modifies this
      ensures (Current(), r) == Apply(settings, old(Current()), ConsentLifecycle.Verify(id, proof, now))
    {
      if id !in nodes {
        return NotFound;
      }
      var row := nodes[id];
      if row.consent.None? {
        return ConsentRequired;
      }
      var consent := row.consent.value;
      if proof == Unreachable {
        return UpstreamFailed;
      }
      if proof == Bad {
        consent := consent.(status := Failed);
        nodes := nodes[id := row.(consent := Some(consent), status := Quarantined)];
        log := log + [VerifyFailed(id)];
        return ConsentRequired;
      }
      var expires := now + TtlDays(settings.recheckInterval) as real * DAY;
      consent := consent.(status := Proven);
      consent := consent.(expires := Some(expires));
      nodes := nodes[id := row.(consent := Some(consent), status := Verified)];
      log := log + [VerifyOk(id, expires)];
      r := Done;
    }

    method Revoke(id: NodeId) returns (r: Reply)
      modifies this
      ensures (Current(), r) == Apply(settings, old(Current()), ConsentLifecycle.Revoke(id))
    {
      if id !in nodes || nodes[id].consent.None? {
        return NotFound;
      }
      var row := nodes[id];
      row := row.(status := Revoked, consent := Some(row.consent.value.(status := Withdrawn)));
      if row.runtime.Some? {
        row := row.(runtime := Some(row.runtime.value.(routable := false, state := Revoked)));
      }
      nodes := nodes[id := row];
      log := log + [ConsentRevoked(id)];
      r := Done;
    }

    method Block(id: NodeId, now: real) returns (r: Reply)
      modifies this
      ensures (Current(), r) == Apply(settings, old(Current()), ConsentLifecycle.Block(id, now))
    {
      if id !in nodes {
        return NotFound;
      }
      var row := nodes[id].(blocked := true);
      if row.runtime.Some? {
        row := row.(runtime := Some(row.runtime.value.(routable := false)));
        row := row.(runtime := Some(row.runtime.value.(breaker := CB.Tripped(row.runtime.value.breaker, now))));
      }
      nodes := nodes[id := row.(status := Blacklisted)];
      assert log + [] == log;
      r := Done;
    }

    method Lift(id: NodeId) returns (r: Reply)
      modifies this
      ensures (Current(), r) == Apply(settings, old(Current()), ConsentLifecycle.Lift(id))
    {
      if id !in nodes {
        return NotFound;
      }
      if !nodes[id].blocked {
        return InvalidRequest;
      }
      nodes := nodes[id := nodes[id].(blocked := false, status := PendingConsent)];
      assert log + [] == log;
      r := Done;
    }

    method SetDraining(id: NodeId, draining: bool) returns (r: Reply)
      modifies this
      ensures (Current(), r) == Apply(settings, old(Current()), ConsentLifecycle.SetDraining(id, draining))
    {
      if id !in nodes {
        return NotFound;
      }
      if nodes[id].status == Candidate || nodes[id].status == PendingConsent {
        return InvalidRequest;
      }
      nodes := nodes[id := nodes[id].(status := if draining then Draining else Verified)];
      assert log + [] == log;
      r := Done;
    }

    /** Passive observation of an exchange; a refusal by the node takes it out at once. */
    method Observe(id: NodeId, ok: bool, status: int, now: real) returns (r: Reply)
      modifies this
      ensures (Current(), r) == Apply(settings, old(Current()), ConsentLifecycle.Observe(id, ok, status, now))
    {
      if id !in nodes {
        return NotFound;
      }
      var row := nodes[id];
      if row.runtime.None? {
        return Done;
      }
      var runtime := row.runtime.value;
      var samples := Windows.Trim(runtime.samples + [Stamped(now, NR.Sample(ok, status))], now - settings.passiveWindow);
      runtime := runtime.(samples := samples, breaker := CB.Record(settings.breaker, runtime.breaker, ok, now));
      var refused := FindRefusal(samples);
      if refused && runtime.routable {
        runtime := runtime.(routable := false, breaker := CB.Tripped(runtime.breaker, now));
        row := row.(runtime := Some(runtime), blocked := true, status := Blacklisted);
        if row.consent.Some? && row.consent.value.status == Proven {
          row := row.(consent := Some(row.consent.value.(status := Failed)));
        }
        log := log + [AutoBlacklisted(id)];
      } else {
        row := row.(runtime := Some(runtime));
        assert log + [] == log;
      }
      nodes := nodes[id := row];
      r := Done;
    }

    /** Signals are collected first and resolved once. */
    method CheckNode(id: NodeId, forced: bool, f: Findings, now: real) returns (r: Reply)
      modifies this
      ensures (Current(), r) == Apply(settings, old(Current()), Check(id, forced, f, now))
    {
      if id !in nodes {
        return NotFound;
      }
      var row := nodes[id];
      if !forced && !IsChecked(row.status) {
        assert log + [] == log && nodes[id := row] == nodes;
        return Done;
      }
      var c, consent := RunChecks(settings, row, forced, f, now);
      ghost var expired := ConsentRan(forced, f) && ExpiryFound(row, now);
      var status := Resolve(row, c);
      var blocked := row.blocked;
      if c.signals != [] && status == Blacklisted {
        blocked := true;
        consent := FailIfProven(consent);
      }
      var runtime := row.runtime;
      if forced && runtime.Some? {
        var kept := DropOld(runtime.value.samples, now - settings.passiveWindow);
        runtime := Some(runtime.value.(samples := kept, state := status, routable := IsRoutable(status) && runtime.value.routable));
      }
      SignalsDecide(settings, row, forced, f, now, c, status);
      nodes := nodes[id := Node(status, consent, blocked, c.liveness, c.readiness, runtime)];
      log := log + Effects(id, expired, FoundAuthError(settings, row, forced, f, now));
      r := Done;
    }

    /** Rebuilds the pool from the rows. */
    method SyncPool(now: real) returns (r: Reply)
      modifies this
      ensures (Current(), r) == Apply(settings, old(Current()), Sync(now))
    {
      var todo, synced := nodes.Keys, map[];
      while todo != {}
        invariant todo <= nodes.Keys && synced.Keys == nodes.Keys - todo
        invariant forall id :: id in synced ==> synced[id] == Synced(nodes[id], now)
        invariant nodes == old(nodes) && log == old(log)
        decreases |todo|
      {
        var id :| id in todo;
        var row := nodes[id];
        var routable := IsRoutable(row.status) && ConsentIsActive(row.consent, now);
        if row.status in {Blacklisted, Quarantined, Revoked} {
          routable := false;
        }
        var runtime := if row.runtime.Some? then row.runtime.value else Runtime(row.status, routable, CB.FRESH, []);
        synced := synced[id := row.(runtime := Some(runtime.(state := row.status, routable := routable)))];
        todo := todo - {id};
      }
      nodes := synced;
      assert nodes == SyncAll(old(nodes), now);
      r := Done;
    }

    /** A proof of ownership is followed by a forced check, with a synchronisation after each. */
    method VerifyOwnership(id: NodeId, proof: Proof, f: Findings, now: real) returns (r: Reply)
      modifies this
      ensures r == Apply(settings, old(Current()), ConsentLifecycle.Verify(id, proof, now)).1
      ensures r != Done ==> Current() == Step(settings, old(Current()), ConsentLifecycle.Verify(id, proof, now))
      ensures r == Done ==> proof == Good
      ensures r == Done ==> Current() == After(settings, old(Current()), [ConsentLifecycle.Verify(id, Good, now), Sync(now), Check(id, true, f, now), Sync(now)])
    {
      r := Verify(id, proof, now);
      if r == Done {
        var _ := SyncPool(now);
        var _ := CheckNode(id, true, f, now);
        var _ := SyncPool(now);
        AfterFour(settings, old(Current()), ConsentLifecycle.Verify(id, Good, now), Sync(now), Check(id, true, f, now), Sync(now));
      }
    }

    /** Revocation reaches the pool in the same call. */
    method RevokeConsent(id: NodeId, now: real) returns (r: Reply)
      modifies this
      ensures r == Done ==> Current() == Step(settings, Step(settings, old(Current()), ConsentLifecycle.Revoke(id)), Sync(now))
      ensures r == Done ==> id in nodes && nodes[id].runtime.Some? && !nodes[id].runtime.value.routable && nodes[id].status == Revoked
      ensures r != Done ==> Current() == old(Current())
    {
      r := Revoke(id);
      if r == Done {
        var _ := SyncPool(now);
      }
    }

    /** One round of the background checker over the listed rows is a run of unforced checks. */
    method CheckAll(listed: seq<NodeId>, findings: NodeId -> Findings, now: real)
      modifies this
      ensures Current() == After(settings, old(Current()), Checks(listed, findings, now))
    {
      for i := 0 to |listed|
        invariant Current() == After(settings, old(Current()), Checks(listed[..i], findings, now))
      {
        CheckNext(settings, old(Current()), listed, i, findings, now);
        var id := listed[i];
        if id in nodes && (nodes[id].status == Blacklisted || nodes[id].status == Revoked) {
          SkippedCheck(settings, Current(), id, findings(id), now);
        } else {
          var _ := CheckNode(id, false, findings(id), now);
        }
      }
      assert listed[..|listed|] == listed;
    }

    /** The expiry loop revokes every listed consent that has run out, then synchronises. */
    method ExpireConsents(listed: seq<NodeId>, now: real) returns (expired: seq<NodeId>)
      modifies this
      ensures forall id :: id in expired <==> (
        && id in listed && id in old(nodes) && old(nodes)[id].consent.Some? && old(nodes)[id].consent.value.status == Proven
        && old(nodes)[id].consent.value.expires.Some? && old(nodes)[id].consent.value.expires.value < now)
      ensures Current() == After(settings, old(Current()), Revocations(expired) + (if expired == [] then [] else [Sync(now)]))
    {
      expired := [];
      for i := 0 to |listed|
        invariant IsExpirySweep(old(Current()), listed[..i], expired, now)
      {
        assert listed[..i + 1] == listed[..i] + [listed[i]];
        var id := listed[i];
        if id in nodes {
          var c := nodes[id].consent;
          if c.Some? && c.value.status == Proven && c.value.expires.Some? && c.value.expires.value < now {
            expired := expired + [id];
          }
        }
      }
      assert listed[..|listed|] == listed;
      for i := 0 to |expired|
        invariant Current() == After(settings, old(Current()), Revocations(expired[..i]))
      {
        assert expired[..i + 1][..i] == expired[..i];
        AfterSnoc(settings, old(Current()), Revocations(expired[..i]), ConsentLifecycle.Revoke(expired[i]));
        var _ := Revoke(expired[i]);
      }
      assert expired[..|expired|] == expired;
      if expired == [] {
        assert Revocations(expired) + [] == Revocations(expired);
      } else {
        AfterSnoc(settings, old(Current()), Revocations(expired), Sync(now));
        var _ := SyncPool(now);
      }
    }

    /** The breaker is asked of every routable node a selection looks at. */
    method Look(id: NodeId, now: real) returns (allowed: bool)
      modifies this
      ensures Current() == Step(settings, old(Current()), ConsentLifecycle.Look(id, now))
      ensures allowed <==> id in old(nodes) && LetsThrough(settings, old(nodes)[id], now)
    {
      allowed := false;
      if id in nodes {
        var row := nodes[id];
        assert nodes[id := row] == nodes && log + [] == log;
        if row.runtime.Some? && row.runtime.value.routable {
          var asked := CB.Allow(settings.breaker, row.runtime.value.breaker, now);
          nodes := nodes[id := row.(runtime := Some(row.runtime.value.(breaker := asked.0)))];
          allowed := asked.1;
        }
      }
    }

    /** The double check at the moment a slot is taken. */
    method Acquire(id: NodeId, now: real) returns (r: Reply)
      modifies this
      ensures (Current(), r) == Apply(settings, old(Current()), ConsentLifecycle.Acquire(id, now))
    {
      if id !in nodes {
        return NotFound;
      }
      var row := nodes[id];
      assert log + [] == log;
      var allowed := Look(id, now);
      if !allowed {
        return Denied;
      }
      var healthy := ConsentIsActive(row.consent, now) && row.status in {Verified, Healthy, Degraded};
      if !healthy {
        return Denied;
      }
      log := log + [Granted(id, now)];
      r := Done;
    }
  }

  /** The pool's flag and the breaker allow a request. */
  predicate LetsThrough(s: Settings, n: Node, now: real)
  {
    n.runtime.Some? && n.runtime.value.routable && CB.Allow(s.breaker, n.runtime.value.breaker, now).1
  }

  /** The winning finding, a recovery, or the status as it was. */
  predicate Decides(n: Node, c: Collected, status: NodeState)
  {
    if BLACKLIST in c.signals then status == Blacklisted
    else if QUARANTINE in c.signals then status == Quarantined
    else if UNHEALTHY in c.signals then status == Unhealthy
    else if DEGRADED in c.signals then status == Degraded
    else if c.executed > 0 && c.passed == c.executed && Severity(n.status) > 1 && n.status != Draining then status == Verified
    else status == n.status
  }

  method Resolve(n: Node, c: Collected) returns (status: NodeState)
    requires Known(c.signals)
    ensures Decides(n, c, status)
    ensures BLACKLIST in c.signals <==> c.signals != [] && status == Blacklisted
  {
    status := n.status;
    var recovered := c.signals == [] && c.executed > 0 && c.passed == c.executed
      && Severity(n.status) > Severity(Verified) && n.status != Draining;
    if c.signals != [] {
      StrongestFirst(c.signals);
      status := Sort(c.signals)[0].item;
      assert c.signals[0] in c.signals;
    } else if recovered {
      status := Verified;
    }
  }

  lemma SignalsDecide(s: Settings, n: Node, forced: bool, f: Findings, now: real, c: Collected, status: NodeState)
    requires forced || IsChecked(n.status)
    requires Resolves(s, n, forced, f, now, c.signals) && Decides(n, c, status)
    requires c.executed > 0 && c.passed == c.executed <==> AllPassed(n, forced, f, now)
    ensures status == CheckedStatus(s, n, forced, f, now)
  {
  }

  lemma CheckNext(s: Settings, w: World, listed: seq<NodeId>, i: nat, findings: NodeId -> Findings, now: real)
    requires i < |listed|
    ensures After(s, w, Checks(listed[..i + 1], findings, now))
      == Step(s, After(s, w, Checks(listed[..i], findings, now)), Check(listed[i], false, findings(listed[i]), now))
  {
    assert listed[..i + 1][..i] == listed[..i];
    AfterSnoc(s, w, Checks(listed[..i], findings, now), Check(listed[i], false, findings(listed[i]), now));
  }

  /** Leaving out blacklisted and revoked rows changes nothing. */
  lemma SkippedCheck(s: Settings, w: World, id: NodeId, f: Findings, now: real)
    requires id in w.nodes && w.nodes[id].status in {Blacklisted, Revoked}
    ensures Step(s, w, Check(id, false, f, now)) == w
  {
    assert w.nodes[id := w.nodes[id]] == w.nodes && w.log + [] == w.log;
  }

  lemma AfterFour(s: Settings, w: World, a: Op, b: Op, c: Op, d: Op)
    ensures After(s, w, [a, b, c, d]) == Step(s, Step(s, Step(s, Step(s, w, a), b), c), d)
  {
    AfterThree(s, w, a, b, c);
    AfterSnoc(s, w, [a, b, c], d);
    assert [a, b, c] + [d] == [a, b, c, d];
  }

  /** An unforced check of every listed node, in order. */
  function Checks(listed: seq<NodeId>, findings: NodeId -> Findings, now: real): (checks: seq<Op>)
    ensures |checks| == |listed| && forall i :: 0 <= i < |listed| ==> checks[i] == Check(listed[i], false, findings(listed[i]), now)
  {
    if listed == [] then []
    else
      var id := listed[|listed| - 1];
      Checks(listed[..|listed| - 1], findings, now) + [Check(id, false, findings(id), now)]
  }

  function Revocations(ids: seq<NodeId>): (revocations: seq<Op>)
    ensures |revocations| == |ids| && forall i :: 0 <= i < |ids| ==> revocations[i] == ConsentLifecycle.Revoke(ids[i])
  {
    if ids == [] then [] else Revocations(ids[..|ids| - 1]) + [ConsentLifecycle.Revoke(ids[|ids| - 1])]
  }

  /** Exactly the listed nodes whose proven consent has run out. */
  ghost predicate IsExpirySweep(w: World, listed: seq<NodeId>, expired: seq<NodeId>, now: real)
  {
    forall id :: id in expired <==> (
      && id in listed && id in w.nodes
      && var c := w.nodes[id].consent;
         c.Some? && c.value.status == Proven && c.value.expires.Some? && c.value.expires.value < now)
  }
}
