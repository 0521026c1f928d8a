/** Runs of the consent lifecycle that start at an operation: what it takes out of service stays out, what
    it lets in is served, and what the gateway remembers of a node is its history. */
module LifecycleRuns {
  import opened Common
  import opened Windows
  import opened ConsentLifecycle
  import CB = CircuitBreaker
  import NR = NodeRuntime

  // ---------------------------------------------------------------------------
  // Operations that take a node out of service
  // ---------------------------------------------------------------------------

  /** A drain takes a node out of service: while liveness and readiness pass, it gets no request until a
      proof, a change of draining or a forced check. */
  lemma {:induction false} DrainKeepsOut(s: Settings, w: World, id: NodeId, ops: seq<Op>)
    requires id in w.nodes && w.nodes[id].status != Candidate && w.nodes[id].status != PendingConsent
    requires forall i :: 0 <= i < |ops| ==> !Reopens(ops[i], id) && ChecksFine(ops[i], id)
    ensures var drained := Step(s, w, SetDraining(id, true));
      var end := After(s, drained, ops);
      && drained.nodes[id] == w.nodes[id].(status := Draining)
      && id in end.nodes && end.nodes[id].status !in {Verified, Healthy, Degraded, Unhealthy}
      && Grants(end.log, id) == Grants(w.log, id)
  {
    assert w.log + [] == w.log;
    DrainingLasts(s, Step(s, w, SetDraining(id, true)), ops, id);
  }

  /** The operations that take the node out until it is reopened: a failed proof, a revocation, a block, its
      lifting, an exchange refused for lack of authorisation. */
  predicate TakesOut(s: Settings, w: World, op: Op, id: NodeId)
  {
    && id in w.nodes
    && var n := w.nodes[id];
       match op
       case Verify(node, proof, _) => node == id && proof == Bad && n.consent.Some?
       case Revoke(node) => node == id && n.consent.Some?
       case Block(node, _) => node == id
       case Lift(node) => node == id && n.blocked
       case Observe(node, _, status, _) =>
         node == id && n.runtime.Some? && n.runtime.value.routable && 0.0 <= s.passiveWindow && (status == 401 || status == 403)
       case _ => false
  }

  /** After such an operation the node gets no request, whatever else happens, until its owner proves ownership,
      an operator changes its draining, or an operator forces a check. */
  lemma {:induction false} OutUntilReopened(s: Settings, w: World, op: Op, id: NodeId, ops: seq<Op>)
    requires TakesOut(s, w, op, id)
    requires forall i :: 0 <= i < |ops| ==> !Reopens(ops[i], id)
    ensures var end := After(s, Step(s, w, op), ops);
      && id in end.nodes && end.nodes[id].status !in {Verified, Healthy, Degraded, Unhealthy, Draining}
      && Grants(end.log, id) == Grants(w.log, id)
  {
    var out := Step(s, w, op);
    TakenOut(s, w, op, id);
    ExclusionLasts(s, out, ops, id);
  }

  lemma {:induction false} TakenOut(s: Settings, w: World, op: Op, id: NodeId)
    requires TakesOut(s, w, op, id)
    ensures Excluded(Step(s, w, op), id) && Grants(Step(s, w, op).log, id) == Grants(w.log, id)
  {
    assert w.log + [] == w.log;
    match op {
      case Verify(node, _, _) => GrantsAppend(w.log, [VerifyFailed(node)], id);
      case Revoke(node) => GrantsAppend(w.log, [ConsentRevoked(node)], id);
      case Observe(node, ok, status, now) =>
        RefusalKeepsOut(s, w, id, ok, status, now, []);
      case _ =>
    }
  }

  /** What such an operation leaves behind: a failed or withdrawn consent, a block on record or lifted, and in
      the pool a flag that is off at once. */
  lemma {:induction false} OutMeans(s: Settings, w: World, op: Op, id: NodeId)
    requires TakesOut(s, w, op, id)
    ensures var was, n := w.nodes[id], Step(s, w, op).nodes[id];
      && (op.Verify? ==> n.status == Quarantined && n.consent == Some(was.consent.value.(status := Failed)) && n.blocked == was.blocked)
      && (op.Revoke? ==> n.status == Revoked && n.consent == Some(was.consent.value.(status := Withdrawn)) && n.blocked == was.blocked)
      && (op.Block? ==> n.status == Blacklisted && n.consent == was.consent && n.blocked)
      && (op.Lift? ==> n.status == PendingConsent && n.consent == was.consent && !n.blocked)
      && (op.Observe? ==> n.status == Blacklisted && n.blocked)
      && (op.Observe? ==> n.consent == if was.consent.Some? && was.consent.value.status == Proven
            then Some(was.consent.value.(status := Failed)) else was.consent)
      && ((op.Revoke? || op.Block? || op.Observe?) && was.runtime.Some? ==> n.runtime.Some? && !n.runtime.value.routable)
      && ((op.Block? || op.Observe?) && was.runtime.Some? ==> n.runtime.value.breaker.mode == CB.Open && n.runtime.value.breaker.openedAt == op.now)
      && ((op.Verify? || op.Lift?) ==> n.runtime == was.runtime)
  {
    if op.Observe? {
      var r, sample := w.nodes[id].runtime.value, Stamped(op.now, NR.Sample(op.ok, op.status));
      DropOldKeepsLast(r.samples, sample, op.now - s.passiveWindow);
      assert NR.IsRefusal(sample.item) && sample in Noted(s, r, op.ok, op.status, op.now).samples;
    }
  }

  /** A new node waits for its owner: it has been sent a challenge, and gets no request before a proof, a change of
      draining or a forced check. */
  lemma {:induction false} EnrolledWaits(s: Settings, w: World, id: NodeId, ops: seq<Op>)
    requires id !in w.nodes
    requires forall i :: 0 <= i < |ops| ==> !Reopens(ops[i], id)
    ensures var enrolled := Step(s, w, Enroll(id));
      && enrolled.nodes == w.nodes[id := Node(ConsentChallengeSent, Some(Consent(Sent, None)), false, 0, 0, None)]
      && Grants(After(s, enrolled, ops).log, id) == Grants(w.log, id)
  {
    var enrolled := Step(s, w, Enroll(id));
    GrantsAppend(w.log, [Enrolled(id)], id);
    ExclusionLasts(s, enrolled, ops, id);
  }

  // ---------------------------------------------------------------------------
  // Who is served
  // ---------------------------------------------------------------------------

  /** After a synchronisation a node is granted a slot exactly if its row is in a routable state, its consent
      is proven and has not run out, and its breaker lets the request through. */
  lemma {:induction false} ServedExactly(s: Settings, w: World, id: NodeId, now: real)
    requires id in w.nodes
    ensures var n, breaker := w.nodes[id], BreakerOf(w.nodes[id]);
      After(s, w, [Sync(now), Acquire(id, now)]).log == w.log + [Granted(id, now)] <==>
        && (n.status == Verified || n.status == Healthy || n.status == Degraded)
        && n.consent.Some? && n.consent.value.status == Proven && (n.consent.value.expires.Some? ==> now < n.consent.value.expires.value)
        && match breaker.mode
           case Closed => true
           case Open => s.breaker.openFor <= now - breaker.openedAt && 0 < s.breaker.probes
           case HalfOpen => breaker.inFlight < s.breaker.probes
  {
    AfterSnoc(s, w, [], Sync(now));
    AfterSnoc(s, w, [Sync(now)], Acquire(id, now));
    assert [] + [Sync(now)] == [Sync(now)] && [Sync(now)] + [Acquire(id, now)] == [Sync(now), Acquire(id, now)];
    SyncAcquire(s, w, id, now);
    assert |w.log + [Granted(id, now)]| == |w.log| + 1;
  }

  /** A new proof brings back any registered node, whatever took it out: for days * 86400 seconds, with
      the days that TtlRange gives, it is granted exactly if its breaker lets the request through. */
  lemma {:induction false} ProofReadmits(s: Settings, w: World, id: NodeId, now: real, later: real)
    requires id in w.nodes && w.nodes[id].consent.Some?
    ensures var proved, until := Step(s, w, Verify(id, Good, now)), now + TtlDays(s.recheckInterval) as real * 86400.0;
      && proved.log == w.log + [VerifyOk(id, until)]
      && proved.nodes[id] == w.nodes[id].(status := Verified, consent := Some(Consent(Proven, Some(until))))
      && (After(s, proved, [Sync(later), Acquire(id, later)]).log == proved.log + [Granted(id, later)] <==>
            later < until && CB.Allow(s.breaker, BreakerOf(w.nodes[id]), later).1)
  {
    var proved := Step(s, w, Verify(id, Good, now));
    ServedExactly(s, proved, id, later);
  }

  // ---------------------------------------------------------------------------
  // Replies
  // ---------------------------------------------------------------------------

  /** When an operation is refused, and that a refusal changes nothing, a failed proof excepted. */
  lemma {:induction false} RepliesMean(s: Settings, w: World, op: Op)
    ensures var (next, r) := Apply(s, w, op);
      && (r == NotFound <==> !op.Sync? && !op.Enroll? && (op.node !in w.nodes || (op.Revoke? && w.nodes[op.node].consent.None?)))
      && (r == InvalidRequest <==>
            || (op.Enroll? && op.node in w.nodes)
            || (op.Lift? && op.node in w.nodes && !w.nodes[op.node].blocked)
            || (op.SetDraining? && op.node in w.nodes && (w.nodes[op.node].status == Candidate || w.nodes[op.node].status == PendingConsent)))
      && (r == ConsentRequired <==> op.Verify? && op.node in w.nodes && (w.nodes[op.node].consent.None? || op.proof == Bad))
      && (r == UpstreamFailed <==> op.Verify? && op.node in w.nodes && w.nodes[op.node].consent.Some? && op.proof == Unreachable)
      && (r == Denied ==> op.Acquire? && next.log == w.log)
      && (r == NotFound || r == InvalidRequest || r == UpstreamFailed ==> next == w)
      && (r == ConsentRequired && next != w ==> op.proof == Bad)
  {
    assert w.log + [] == w.log;
  }

  /** An operation on one node leaves the row of every other as it was. */
  lemma {:induction false} OthersUntouched(s: Settings, w: World, op: Op, id: NodeId)
    requires !op.Sync? && op.node != id
    ensures id in Step(s, w, op).nodes <==> id in w.nodes
    ensures id in w.nodes ==> Step(s, w, op).nodes[id] == w.nodes[id]
  {
  }

  // ---------------------------------------------------------------------------
  // Failure counters
  // ---------------------------------------------------------------------------

  /** The operation checks the node: by force, or in a state that periodic checks touch. */
  predicate ChecksNode(w: World, op: Op, id: NodeId)
  {
    && op.Check? && op.node == id && id in w.nodes
    && (op.forced || w.nodes[id].status in {Verified, Healthy, Degraded, Unhealthy, Draining})
  }

  predicate ProbesLiveness(w: World, op: Op, id: NodeId)
  {
    ChecksNode(w, op, id) && (op.forced || op.findings.livenessDue)
  }

  predicate ProbesReadiness(w: World, op: Op, id: NodeId)
  {
    ChecksNode(w, op, id) && (op.forced || op.findings.readinessDue)
  }

  /** The failed liveness checks since one last passed, on top of `before`. */
  function LivenessFailed(s: Settings, w: World, ops: seq<Op>, id: NodeId, before: nat): nat
  {
    if ops == [] then before
    else
      var front, op := ops[..|ops| - 1], ops[|ops| - 1];
      if !ProbesLiveness(After(s, w, front), op, id) then LivenessFailed(s, w, front, id, before)
      else if op.findings.liveness.Passed? then 0
      else LivenessFailed(s, w, front, id, before) + 1
  }

  function ReadinessFailed(s: Settings, w: World, ops: seq<Op>, id: NodeId, before: nat): nat
  {
    if ops == [] then before
    else
      var front, op := ops[..|ops| - 1], ops[|ops| - 1];
      if !ProbesReadiness(After(s, w, front), op, id) then ReadinessFailed(s, w, front, id, before)
      else if op.findings.readiness.Passed? then 0
      else ReadinessFailed(s, w, front, id, before) + 1
  }

  /** The counters of a row are the failures in a row, over every run. */
  lemma {:induction false} CountersAreHistory(s: Settings, w: World, ops: seq<Op>, id: NodeId)
    requires id in w.nodes
    ensures var end := After(s, w, ops);
      && id in end.nodes
      && end.nodes[id].livenessFailures == LivenessFailed(s, w, ops, id, w.nodes[id].livenessFailures)
      && end.nodes[id].readinessFailures == ReadinessFailed(s, w, ops, id, w.nodes[id].readinessFailures)
  {
    if ops != [] {
      CountersAreHistory(s, w, ops[..|ops| - 1], id);
      CounterStep(s, After(s, w, ops[..|ops| - 1]), ops[|ops| - 1], id);
    }
  }

  lemma {:induction false} CounterStep(s: Settings, w: World, op: Op, id: NodeId)
    requires id in w.nodes
    ensures var was, next := w.nodes[id], Step(s, w, op);
      && id in next.nodes
      && next.nodes[id].livenessFailures ==
           (if !ProbesLiveness(w, op, id) then was.livenessFailures else if op.findings.liveness.Passed? then 0 else was.livenessFailures + 1)
      && next.nodes[id].readinessFailures ==
           (if !ProbesReadiness(w, op, id) then was.readinessFailures else if op.findings.readiness.Passed? then 0 else was.readinessFailures + 1)
  {
  }

  /** No check found the node unauthorised, and its consent, as far as it was checked, holds. */
  predicate NothingStronger(n: Node, forced: bool, f: Findings, now: real)
  {
    && !Unauthorised(f.liveness) && !Unauthorised(f.readiness) && !Unauthorised(f.functional)
    && (forced || f.consentDue ==>
          n.consent.Some? && n.consent.value.status == Proven && n.consent.value.expires.Some? && now < n.consent.value.expires.value
          && f.proof != Bad)
    && (forced && n.runtime.Some? ==>
          forall i :: 0 <= i < |n.runtime.value.samples| ==> n.runtime.value.samples[i].item.status !in {401, 403})
  }

  predicate Unauthorised(a: Answer)
  {
    a.Refused? && (a.status == 401 || a.status == 403)
  }

  lemma {:induction false} DropOldMembers<T>(events: seq<Stamped<T>>, cutoff: real)
    ensures forall e :: e in DropOld(events, cutoff) ==> e in events
  {
    if events != [] && events[0].at < cutoff {
      DropOldMembers(events[1..], cutoff);
    }
  }

  lemma {:induction false} NotRefused(s: Settings, n: Node, forced: bool, f: Findings, now: real)
    requires NothingStronger(n, forced, f, now)
    ensures !FoundAuthError(s, n, forced, f, now) && !(ConsentRan(forced, f) && ConsentBroken(n, f, now))
  {
    if PassiveRan(n, forced) {
      DropOldMembers(n.runtime.value.samples, now - s.passiveWindow);
    }
  }

  /** As many failed liveness checks in a row as the threshold, with nothing stronger found, and the node is
      UNHEALTHY; so it gets no request. With fewer, a periodic check does not make it so. */
  lemma {:induction false} LivenessDecides(s: Settings, w: World, ops: seq<Op>, id: NodeId, forced: bool, f: Findings, now: real)
    requires id in w.nodes && id in After(s, w, ops).nodes
    requires ProbesLiveness(After(s, w, ops), Check(id, forced, f, now), id)
    requires f.liveness.Refused? && NothingStronger(After(s, w, ops).nodes[id], forced, f, now)
    ensures var failed := LivenessFailed(s, w, ops + [Check(id, forced, f, now)], id, w.nodes[id].livenessFailures);
      var end := After(s, w, ops + [Check(id, forced, f, now)]);
      && id in end.nodes
      && (failed >= s.livenessThreshold ==> end.nodes[id].status == Unhealthy)
      && (failed < s.livenessThreshold && !forced && After(s, w, ops).nodes[id].status != Unhealthy ==> end.nodes[id].status != Unhealthy)
  {
    var op := Check(id, forced, f, now);
    AfterSnoc(s, w, ops, op);
    CountersAreHistory(s, w, ops + [op], id);
    NotRefused(s, After(s, w, ops).nodes[id], forced, f, now);
  }

  /** The same for readiness and DEGRADED, if liveness passes. */
  lemma {:induction false} ReadinessDecides(s: Settings, w: World, ops: seq<Op>, id: NodeId, f: Findings, now: real)
    requires id in w.nodes && id in After(s, w, ops).nodes
    requires ProbesReadiness(After(s, w, ops), Check(id, false, f, now), id)
    requires f.readiness.Refused? && (f.livenessDue ==> f.liveness.Passed?) && NothingStronger(After(s, w, ops).nodes[id], false, f, now)
    ensures var failed := ReadinessFailed(s, w, ops + [Check(id, false, f, now)], id, w.nodes[id].readinessFailures);
      var end := After(s, w, ops + [Check(id, false, f, now)]);
      && id in end.nodes
      && (failed >= s.readinessThreshold ==> end.nodes[id].status == Degraded)
      && (failed < s.readinessThreshold ==> end.nodes[id].status == After(s, w, ops).nodes[id].status)
  {
    var op := Check(id, false, f, now);
    AfterSnoc(s, w, ops, op);
    CountersAreHistory(s, w, ops + [op], id);
    NotRefused(s, After(s, w, ops).nodes[id], false, f, now);
  }

  /** A check that finds the node unauthorised blacklists it, puts it on record and takes its proof away; one
      that finds the consent broken, and nothing stronger, quarantines it; a lapsed consent is marked. */
  lemma {:induction false} CheckTakesOut(s: Settings, w: World, id: NodeId, forced: bool, f: Findings, now: real)
    requires ChecksNode(w, Check(id, forced, f, now), id)
    ensures var was, n := w.nodes[id], Step(s, w, Check(id, forced, f, now)).nodes[id];
      var refused := ((forced || f.livenessDue) && Unauthorised(f.liveness)) || ((forced || f.readinessDue) && Unauthorised(f.readiness))
        || (f.functionalDue && Unauthorised(f.functional));
      var lapsed := was.consent.Some? && was.consent.value.status == Proven && was.consent.value.expires.Some? && was.consent.value.expires.value <= now;
      var broken := was.consent.None? || was.consent.value.status != Proven || was.consent.value.expires.None? || lapsed || f.proof == Bad;
      && (refused ==> n.status == Blacklisted && n.blocked && (n.consent.Some? ==> n.consent.value.status != Proven))
      && ((forced || f.consentDue) && broken ==> n.status == Quarantined || n.status == Blacklisted)
      && ((forced || f.consentDue) && lapsed ==> n.consent == Some(was.consent.value.(status := Expired)))
      && (NothingStronger(was, forced, f, now) ==>
            n.consent == was.consent && n.blocked == was.blocked && (n.status == was.status || n.status in {Verified, Degraded, Unhealthy}))
  {
    if NothingStronger(w.nodes[id], forced, f, now) {
      NotRefused(s, w.nodes[id], forced, f, now);
    }
  }

  /** A forced check takes the node out of the pool's routable set at once if its new state is not routable, and puts
      none in; a periodic one leaves that to the next synchronisation. */
  lemma {:induction false} CheckOfPool(s: Settings, w: World, id: NodeId, forced: bool, f: Findings, now: real)
    requires ChecksNode(w, Check(id, forced, f, now), id) && w.nodes[id].runtime.Some?
    ensures var was, n := w.nodes[id], Step(s, w, Check(id, forced, f, now)).nodes[id];
      && n.runtime.Some? && n.runtime.value.breaker == was.runtime.value.breaker
      && (!forced ==> n.runtime == was.runtime)
      && (forced ==> n.runtime.value.state == n.status)
      && (forced ==> (n.runtime.value.routable <==>
            was.runtime.value.routable && (n.status == Verified || n.status == Healthy || n.status == Degraded)))
  {
  }

  /** What a clean check makes of a node: UNHEALTHY and DEGRADED ones are verified again, and so is a QUARANTINED,
      BLACKLISTED or REVOKED one if the check was forced; nobody else changes. */
  lemma {:induction false} CleanCheck(s: Settings, w: World, id: NodeId, forced: bool, now: real)
    requires ChecksNode(w, Check(id, forced, Findings(true, Passed, true, Passed, true, Good, false, Passed), now), id)
    requires var f := Findings(true, Passed, true, Passed, true, Good, false, Passed); NothingStronger(w.nodes[id], forced, f, now)
    requires forced && w.nodes[id].runtime.Some? ==> w.nodes[id].runtime.value.samples == [] && 0.0 <= s.errorThreshold && 0 < s.livenessThreshold
    ensures var was := w.nodes[id];
      var n := Step(s, w, Check(id, forced, Findings(true, Passed, true, Passed, true, Good, false, Passed), now)).nodes[id];
      && n.livenessFailures == 0 && n.readinessFailures == 0
      && n.status == if was.status in {Degraded, Unhealthy, Quarantined, Revoked, Blacklisted} then Verified else was.status
  {
    NotRefused(s, w.nodes[id], forced, Findings(true, Passed, true, Passed, true, Good, false, Passed), now);
  }

  // ---------------------------------------------------------------------------
  // What the pool remembers
  // ---------------------------------------------------------------------------

  /** The calls an operation makes of the node's breaker. */
  function CallsOf(s: Settings, w: World, op: Op, id: NodeId): seq<CB.Call>
  {
    if op.Sync? || op.node != id || id !in w.nodes || w.nodes[id].runtime.None? then []
    else
      var r := w.nodes[id].runtime.value;
      match op
      case Observe(_, ok, status, now) =>
        [CB.Call(CB.RecordOp(ok), now)]
          + if r.routable && HasRefusal(DropOld(r.samples + [Stamped(now, NR.Sample(ok, status))], now - s.passiveWindow))
            then [CB.Call(CB.ForceOpenOp, now)] else []
      case Block(_, now) => [CB.Call(CB.ForceOpenOp, now)]
      case Look(_, now) => if r.routable then [CB.Call(CB.AllowOp, now)] else []
      case Acquire(_, now) => if r.routable then [CB.Call(CB.AllowOp, now)] else []
      case _ => []
  }

  /** All of them in a run. */
  function Calls(s: Settings, w: World, ops: seq<Op>, id: NodeId): seq<CB.Call>
  {
    if ops == [] then []
    else Calls(s, w, ops[..|ops| - 1], id) + CallsOf(s, After(s, w, ops[..|ops| - 1]), ops[|ops| - 1], id)
  }

  /** Over every run a node's breaker is a breaker of module CircuitBreaker that got exactly these calls: every
      result observed, every look at the node while it is routable, and a trip for every block and refusal.
      So all that is proved there of runs holds of the breakers of the gateway. */
  lemma {:induction false} BreakerIsRun(s: Settings, ops: seq<Op>, id: NodeId)
    ensures BreakerIn(After(s, EMPTY, ops), id) == CB.After(s.breaker, Calls(s, EMPTY, ops, id))
  {
    if ops != [] {
      var front, op := ops[..|ops| - 1], ops[|ops| - 1];
      var w := After(s, EMPTY, front);
      BreakerIsRun(s, front, id);
      BreakerStep(s, w, op, id, Calls(s, EMPTY, front, id));
    }
  }

  function BreakerIn(w: World, id: NodeId): CB.Breaker
  {
    if id in w.nodes then BreakerOf(w.nodes[id]) else CB.FRESH
  }

  /** The breaker after one or two more calls. */
  function Called(cfg: CB.Config, b: CB.Breaker, calls: seq<CB.Call>): CB.Breaker
  {
    if calls == [] then b else CB.Apply(cfg, Called(cfg, b, calls[..|calls| - 1]), calls[|calls| - 1]).0
  }

  lemma {:induction false} CalledAfter(cfg: CB.Config, calls: seq<CB.Call>, more: seq<CB.Call>)
    ensures CB.After(cfg, calls + more) == Called(cfg, CB.After(cfg, calls), more)
  {
    if more == [] {
      assert calls + more == calls;
    } else {
      CalledAfter(cfg, calls, more[..|more| - 1]);
      assert (calls + more)[..|calls + more| - 1] == calls + more[..|more| - 1];
    }
  }

  lemma {:induction false} BreakerStep(s: Settings, w: World, op: Op, id: NodeId, calls: seq<CB.Call>)
    requires BreakerIn(w, id) == CB.After(s.breaker, calls)
    ensures BreakerIn(Step(s, w, op), id) == CB.After(s.breaker, calls + CallsOf(s, w, op, id))
  {
    CallsDo(s, w, op, id);
    CalledAfter(s.breaker, calls, CallsOf(s, w, op, id));
  }

  lemma {:induction false} CallsDo(s: Settings, w: World, op: Op, id: NodeId)
    ensures BreakerIn(Step(s, w, op), id) == Called(s.breaker, BreakerIn(w, id), CallsOf(s, w, op, id))
  {
    var more, b := CallsOf(s, w, op, id), BreakerIn(w, id);
    if |more| == 1 {
      CalledOnce(s.breaker, b, more[0]);
      assert more == [more[0]];
    } else if |more| == 2 {
      CalledTwice(s.breaker, b, more[0], more[1]);
      assert more == [more[0], more[1]];
    }
  }

  lemma {:induction false} CalledOnce(cfg: CB.Config, b: CB.Breaker, x: CB.Call)
    ensures Called(cfg, b, [x]) == CB.Apply(cfg, b, x).0
  {
    assert [x][..0] == [];
  }

  lemma {:induction false} CalledTwice(cfg: CB.Config, b: CB.Breaker, x: CB.Call, y: CB.Call)
    ensures Called(cfg, b, [x, y]) == CB.Apply(cfg, CB.Apply(cfg, b, x).0, y).0
  {
    CalledOnce(cfg, b, x);
    assert [x, y][..1] == [x];
  }

  predicate IsObserved(w: World, op: Op, id: NodeId)
  {
    op.Observe? && op.node == id && id in w.nodes && w.nodes[id].runtime.Some?
  }

  /** Every exchange with the node that was observed while it was in the pool. */
  function Observed(s: Settings, w: World, ops: seq<Op>, id: NodeId): seq<Stamped<NR.Sample>>
  {
    if ops == [] then []
    else
      var front, op := ops[..|ops| - 1], ops[|ops| - 1];
      var before := After(s, w, front);
      if IsObserved(before, op, id)
      then Observed(s, w, front, id) + [Stamped(op.now, NR.Sample(op.ok, op.status))]
      else Observed(s, w, front, id)
  }

  /** The time an operation reads, if it reads one. */
  function ClockOf(op: Op): Option<real>
  {
    match op
    case Verify(_, _, now) => Some(now)
    case Block(_, now) => Some(now)
    case Observe(_, _, _, now) => Some(now)
    case Check(_, _, _, now) => Some(now)
    case Sync(now) => Some(now)
    case Look(_, now) => Some(now)
    case Acquire(_, now) => Some(now)
    case _ => None
  }

  /** The clock never goes back and has come to `now`. */
  ghost predicate Timely(ops: seq<Op>, now: real)
  {
    && (forall i :: 0 <= i < |ops| && ClockOf(ops[i]).Some? ==> ClockOf(ops[i]).value <= now)
    && forall i, j :: 0 <= i < j < |ops| && ClockOf(ops[i]).Some? && ClockOf(ops[j]).Some? ==> ClockOf(ops[i]).value <= ClockOf(ops[j]).value
  }

  /** The samples that the pool keeps of the node, none if it is not in the pool. */
  function SamplesOf(w: World, id: NodeId): seq<Stamped<NR.Sample>>
  {
    if id in w.nodes && w.nodes[id].runtime.Some? then w.nodes[id].runtime.value.samples else []
  }

  ghost predicate UpTo(h: seq<Stamped<NR.Sample>>, now: real)
  {
    Chronological(h) && forall i :: 0 <= i < |h| ==> h[i].at <= now
  }

  /** The samples hold what any window from now on needs of that history, whatever trimmed them before. */
  lemma {:induction false} SamplesAreHistory(s: Settings, ops: seq<Op>, id: NodeId, now: real)
    requires Timely(ops, now)
    ensures UpTo(Observed(s, EMPTY, ops, id), now)
    ensures Tracks(SamplesOf(After(s, EMPTY, ops), id), Observed(s, EMPTY, ops, id), now - s.passiveWindow)
  {
    if ops != [] {
      var front, op := ops[..|ops| - 1], ops[|ops| - 1];
      var w, h := After(s, EMPTY, front), Observed(s, EMPTY, front, id);
      var clock := if ClockOf(op).Some? then ClockOf(op).value else now;
      TimelyFront(ops, now, clock);
      SamplesAreHistory(s, front, id, clock);
      SamplesStep(s, w, op, id, h, clock);
      assert clock - s.passiveWindow <= now - s.passiveWindow;
    }
  }

  lemma TimelyFront(ops: seq<Op>, now: real, clock: real)
    requires Timely(ops, now) && ops != []
    requires var op := ops[|ops| - 1]; clock == if ClockOf(op).Some? then ClockOf(op).value else now
    ensures Timely(ops[..|ops| - 1], clock) && clock <= now
  {
  }

  /** What a step makes of the samples: an exchange joins them, and it and a forced check trim. */
  lemma {:induction false} SamplesAfter(s: Settings, w: World, op: Op, id: NodeId)
    ensures var samples, after := SamplesOf(w, id), SamplesOf(Step(s, w, op), id);
      if IsObserved(w, op, id) then after == DropOld(samples + [Stamped(op.now, NR.Sample(op.ok, op.status))], op.now - s.passiveWindow)
      else after == samples || (op.Check? && after == DropOld(samples, op.now - s.passiveWindow))
  {
  }

  lemma {:induction false} SamplesStep(s: Settings, w: World, op: Op, id: NodeId, h: seq<Stamped<NR.Sample>>, now: real)
    requires ClockOf(op).Some? ==> ClockOf(op).value == now
    requires UpTo(h, now) && Tracks(SamplesOf(w, id), h, now - s.passiveWindow)
    ensures var longer := if IsObserved(w, op, id) then h + [Stamped(now, NR.Sample(op.ok, op.status))] else h;
      UpTo(longer, now) && Tracks(SamplesOf(Step(s, w, op), id), longer, now - s.passiveWindow)
  {
    var cutoff, samples := now - s.passiveWindow, SamplesOf(w, id);
    SamplesAfter(s, w, op, id);
    if IsObserved(w, op, id) {
      OneMoreSample(samples, h, Stamped(now, NR.Sample(op.ok, op.status)), cutoff);
    } else {
      TrimTracks(samples, h, cutoff, cutoff);
    }
  }

  lemma {:induction false} OneMoreSample(samples: seq<Stamped<NR.Sample>>, h: seq<Stamped<NR.Sample>>, e: Stamped<NR.Sample>, cutoff: real)
    requires UpTo(h, e.at) && Tracks(samples, h, cutoff)
    ensures UpTo(h + [e], e.at) && Tracks(DropOld(samples + [e], cutoff), h + [e], cutoff)
  {
    AppendTracks(samples, h, e, cutoff);
    TrimTracks(samples + [e], h + [e], cutoff, cutoff);
  }

  /** What passive statistics say of the exchanges of a window: some refusal for lack of authorisation, the share of
      failures, the timeouts at the end. */
  ghost predicate Figures(p: Passive, recent: seq<Stamped<NR.Sample>>)
  {
    && (p.authError <==> exists i :: 0 <= i < |recent| && recent[i].item.status in {401, 403})
    && p.errorRate == (if recent == [] then 0.0 else |NR.FailedAt(recent)| as real / |recent| as real)
    && p.timeouts <= |recent|
    && (forall i :: |recent| - p.timeouts <= i < |recent| ==> !recent[i].item.ok && recent[i].item.status == 0)
    && (p.timeouts < |recent| ==> recent[|recent| - 1 - p.timeouts].item.ok || recent[|recent| - 1 - p.timeouts].item.status != 0)
  }

  /** So what a forced check looks at is what the history of the window says. */
  lemma {:induction false} PassiveIsHistory(s: Settings, ops: seq<Op>, id: NodeId, now: real)
    requires Timely(ops, now) && id in After(s, EMPTY, ops).nodes && After(s, EMPTY, ops).nodes[id].runtime.Some?
    ensures Figures(PassiveOf(s, After(s, EMPTY, ops).nodes[id].runtime.value, now), Since(Observed(s, EMPTY, ops, id), now - s.passiveWindow))
  {
    SamplesAreHistory(s, ops, id, now);
    PassiveMeans(s, After(s, EMPTY, ops).nodes[id].runtime.value, now);
  }

  lemma {:induction false} PassiveMeans(s: Settings, r: Runtime, now: real)
    ensures Figures(PassiveOf(s, r, now), DropOld(r.samples, now - s.passiveWindow))
  {
    var recent := DropOld(r.samples, now - s.passiveWindow);
    NR.FailuresAreAt(recent);
    StreakMeans(recent);
    RefusalAt(recent);
  }

  lemma RefusalAt(samples: seq<Stamped<NR.Sample>>)
    ensures HasRefusal(samples) <==> exists i :: 0 <= i < |samples| && samples[i].item.status in {401, 403}
  {
    if i :| 0 <= i < |samples| && samples[i].item.status in {401, 403} {
      assert samples[i] in samples;
    }
  }

  lemma {:induction false} StreakMeans(samples: seq<Stamped<NR.Sample>>)
    ensures Streak(samples) <= |samples|
    ensures forall i :: |samples| - Streak(samples) <= i < |samples| ==> !samples[i].item.ok && samples[i].item.status == 0
    ensures Streak(samples) < |samples| ==>
      samples[|samples| - 1 - Streak(samples)].item.ok || samples[|samples| - 1 - Streak(samples)].item.status != 0
  {
    if samples != [] && NR.IsTimeout(samples[|samples| - 1].item) {
      StreakMeans(samples[..|samples| - 1]);
    }
  }

  /** What those statistics do in a forced check that otherwise finds nothing: too many failures degrade a VERIFIED
      or HEALTHY node and make a DEGRADED one UNHEALTHY; as many timeouts at the end as the liveness threshold
      degrade; a refusal blacklists. */
  lemma {:induction false} PassiveDecides(s: Settings, n: Node, f: Findings, now: real)
    requires n.runtime.Some? && n.runtime.value.state == n.status && n.status in {Verified, Healthy, Degraded}
    requires f.liveness.Passed? && f.readiness.Passed? && f.proof == Good && (f.functionalDue ==> f.functional.Passed?)
    requires n.consent.Some? && n.consent.value.status == Proven && n.consent.value.expires.Some? && now < n.consent.value.expires.value
    ensures var p := PassiveOf(s, n.runtime.value, now);
      Checked(s, n, true, f, now).status ==
        if p.authError then Blacklisted
        else if n.status == Degraded then (if p.errorRate > s.errorThreshold then Unhealthy else Verified)
        else if p.errorRate > s.errorThreshold || p.timeouts >= s.livenessThreshold then Degraded
        else n.status
  {
  }
}
