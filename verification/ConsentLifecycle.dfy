/** The life of a node's consent: enrolment, proof of ownership, revocation, expiry, blocking,
    draining, health checks, pool synchronisation and slot grants, as one transition system.
    Every operation is one atomic step; a run is any sequence of them. */
module ConsentLifecycle {
  import opened Common
  import opened Windows
  import CB = CircuitBreaker
  import NR = NodeRuntime

  datatype NodeState =
    | Candidate | PendingConsent | ConsentChallengeSent
    | Verified | Healthy | Degraded | Unhealthy | Draining
    | Quarantined | Blacklisted | Revoked

  datatype ConsentStatus = Sent | Proven | Failed | Expired | Withdrawn

  datatype Consent = Consent(status: ConsentStatus, expires: Option<real>)

  /** The pool's copy of a node: its breaker and the exchanges observed in the passive window. */
  datatype Runtime = Runtime(state: NodeState, routable: bool, breaker: CB.Breaker, samples: seq<Stamped<NR.Sample>>)

  /** A registry row with its consent and whether an unlifted block exists. */
  datatype Node = Node(
    status: NodeState, consent: Option<Consent>, blocked: bool,
    livenessFailures: nat, readinessFailures: nat, runtime: Option<Runtime>)

  datatype Settings = Settings(
    livenessThreshold: int, readinessThreshold: int, errorThreshold: real, recheckInterval: real,
    passiveWindow: real, breaker: CB.Config)

  datatype Proof = Good | Bad | Unreachable

  datatype Answer = Passed | Refused(status: int)

  /** What the checks of one health run find; `due` flags say which intervals have passed. */
  datatype Findings = Findings(
    livenessDue: bool, liveness: Answer, readinessDue: bool, readiness: Answer,
    consentDue: bool, proof: Proof, functionalDue: bool, functional: Answer)

  /** What the observed exchanges say. */
  datatype Passive = Passive(authError: bool, errorRate: real, timeouts: nat)

  datatype Op =
    | Enroll(node: NodeId)
    | Verify(node: NodeId, proof: Proof, now: real)
    | Revoke(node: NodeId)
    | Block(node: NodeId, now: real)
    | Lift(node: NodeId)
    | SetDraining(node: NodeId, draining: bool)
    | Observe(node: NodeId, ok: bool, status: int, now: real)
    | Check(node: NodeId, forced: bool, findings: Findings, now: real)
    | Sync(now: real)
    | Look(node: NodeId, now: real)
    | Acquire(node: NodeId, now: real)

  /** What actually happened. */
  datatype Event =
    | Enrolled(node: NodeId)
    | VerifyOk(node: NodeId, expires: real)
    | VerifyFailed(node: NodeId)
    | ConsentRevoked(node: NodeId)
    | MarkedExpired(node: NodeId)
    | AutoBlacklisted(node: NodeId)
    | Granted(node: NodeId, now: real)

  datatype World = World(nodes: map<NodeId, Node>, log: seq<Event>)

  datatype Reply = Done | NotFound | InvalidRequest | ConsentRequired | UpstreamFailed | Denied

  const EMPTY := World(map[], [])

  // ---------------------------------------------------------------------------
  // Predicates of the code
  // ---------------------------------------------------------------------------

  predicate IsRoutable(s: NodeState)
  {
    s in {Verified, Healthy, Degraded}
  }

  /** The states that periodic checks may touch. */
  predicate IsChecked(s: NodeState)
  {
    s in {Verified, Healthy, Degraded, Unhealthy, Draining}
  }

  function Severity(s: NodeState): nat
  {
    match s
    case Candidate | PendingConsent | ConsentChallengeSent => 0
    case Verified | Healthy => 1
    case Draining => 2
    case Degraded => 3
    case Unhealthy => 4
    case Quarantined => 5
    case Revoked => 6
    case Blacklisted => 7
  }

  predicate ConsentIsActive(c: Option<Consent>, now: real)
  {
    c.Some? && c.value.status == Proven && (c.value.expires.None? || c.value.expires.value > now)
  }

  /** The pool's flag, the breaker, the row and the consent all allow a request. */
  predicate MayServe(s: Settings, n: Node, now: real)
  {
    && n.runtime.Some? && n.runtime.value.routable && CB.Allow(s.breaker, n.runtime.value.breaker, now).1
    && IsRoutable(n.status) && ConsentIsActive(n.consent, now)
  }

  /** Some of the samples was refused for lack of authorisation. */
  predicate HasRefusal(samples: seq<Stamped<NR.Sample>>)
  {
    exists x :: x in samples && NR.IsRefusal(x.item)
  }

  /** The number of timeouts at the end of the samples. */
  function Streak(samples: seq<Stamped<NR.Sample>>): nat
  {
    if samples == [] || !NR.IsTimeout(samples[|samples| - 1].item) then 0 else Streak(samples[..|samples| - 1]) + 1
  }

  function PassiveOf(s: Settings, r: Runtime, now: real): Passive
  {
    var kept := DropOld(r.samples, now - s.passiveWindow);
    Passive(HasRefusal(kept), NR.ErrorShare(kept), Streak(kept))
  }

  const DAY := 86400.0

  /** Days a proof is good for: `max(1, min(365, int(interval * 90 / 86400) or 90))`. */
  function TtlDays(interval: real): int
  {
    var days := Truncate(interval * 90.0 / 86400.0);
    Max(1, Min(365, if days == 0 then 90 else days))
  }

  function Min(a: int, b: int): int
  {
    if a < b then a else b
  }

  // ---------------------------------------------------------------------------
  // One health check: the specification
  // ---------------------------------------------------------------------------

  predicate AuthError(a: Answer)
  {
    a.Refused? && (a.status == 401 || a.status == 403)
  }

  predicate LivenessRan(forced: bool, f: Findings) { forced || f.livenessDue }

  predicate ReadinessRan(forced: bool, f: Findings) { forced || f.readinessDue }

  predicate ConsentRan(forced: bool, f: Findings) { forced || f.consentDue }

  /** Passive statistics are looked at only in forced checks of nodes in the pool. */
  predicate PassiveRan(n: Node, forced: bool)
  {
    forced && n.runtime.Some?
  }

  predicate ExpiryFound(n: Node, now: real)
  {
    n.consent.Some? && n.consent.value.status == Proven && n.consent.value.expires.Some? && n.consent.value.expires.value <= now
  }

  predicate ConsentBroken(n: Node, f: Findings, now: real)
  {
    !ConsentIsActive(n.consent, now) || n.consent.value.expires.None? || f.proof == Bad
  }

  predicate ConsentConfirmed(n: Node, f: Findings, now: real)
  {
    ConsentIsActive(n.consent, now) && n.consent.value.expires.Some? && f.proof == Good
  }

  predicate FoundAuthError(s: Settings, n: Node, forced: bool, f: Findings, now: real)
  {
    || (LivenessRan(forced, f) && AuthError(f.liveness))
    || (ReadinessRan(forced, f) && AuthError(f.readiness))
    || (f.functionalDue && AuthError(f.functional))
    || (PassiveRan(n, forced) && PassiveOf(s, n.runtime.value, now).authError)
  }

  predicate FoundUnhealthy(s: Settings, n: Node, forced: bool, f: Findings, now: real)
  {
    || (LivenessRan(forced, f) && f.liveness.Refused? && n.livenessFailures + 1 >= s.livenessThreshold)
    || (PassiveRan(n, forced) && PassiveOf(s, n.runtime.value, now).errorRate > s.errorThreshold && n.runtime.value.state == Degraded)
  }

  predicate FoundDegraded(s: Settings, n: Node, forced: bool, f: Findings, now: real)
  {
    || (ReadinessRan(forced, f) && f.readiness.Refused? && n.readinessFailures + 1 >= s.readinessThreshold)
    || (PassiveRan(n, forced) && n.runtime.value.state in {Verified, Healthy}
        && (PassiveOf(s, n.runtime.value, now).errorRate > s.errorThreshold || PassiveOf(s, n.runtime.value, now).timeouts >= s.livenessThreshold))
  }

  /** Some check ran and every check that ran passed. */
  predicate AllPassed(n: Node, forced: bool, f: Findings, now: real)
  {
    && (LivenessRan(forced, f) || ReadinessRan(forced, f) || ConsentRan(forced, f) || f.functionalDue)
    && (LivenessRan(forced, f) ==> f.liveness.Passed?)
    && (ReadinessRan(forced, f) ==> f.readiness.Passed?)
    && (ConsentRan(forced, f) ==> ConsentConfirmed(n, f, now))
    && (f.functionalDue ==> f.functional.Passed?)
  }

  /** The status after a check: the strongest finding wins, recovery needs a clean run. */
  function CheckedStatus(s: Settings, n: Node, forced: bool, f: Findings, now: real): NodeState
  {
    if !forced && !IsChecked(n.status) then n.status
    else if FoundAuthError(s, n, forced, f, now) then Blacklisted
    else if ConsentRan(forced, f) && ConsentBroken(n, f, now) then Quarantined
    else if FoundUnhealthy(s, n, forced, f, now) then Unhealthy
    else if FoundDegraded(s, n, forced, f, now) then Degraded
    else if AllPassed(n, forced, f, now) && Severity(n.status) > 1 && n.status != Draining then Verified
    else n.status
  }

  /** Marks a lapsed consent, or takes a proven one away on an authorisation error. */
  function AfterEffects(c: Option<Consent>, expired: bool, refused: bool): Option<Consent>
    requires expired ==> c.Some?
  {
    if expired then Some(c.value.(status := Expired)) else if refused then FailIfProven(c) else c
  }

  function Effects(id: NodeId, expired: bool, refused: bool): seq<Event>
  {
    (if expired then [MarkedExpired(id)] else []) + (if refused then [AutoBlacklisted(id)] else [])
  }

  function FailIfProven(c: Option<Consent>): Option<Consent>
  {
    if c.Some? && c.value.status == Proven then Some(c.value.(status := Failed)) else c
  }

  function Counted(ran: bool, a: Answer, before: nat): nat
  {
    if !ran then before else if a.Passed? then 0 else before + 1
  }

  function Checked(s: Settings, n: Node, forced: bool, f: Findings, now: real): Node
  {
    if !forced && !IsChecked(n.status) then n
    else
      var status := CheckedStatus(s, n, forced, f, now);
      var expired, refused := ConsentRan(forced, f) && ExpiryFound(n, now), FoundAuthError(s, n, forced, f, now);
      Node(status, AfterEffects(n.consent, expired, refused), n.blocked || refused,
        Counted(LivenessRan(forced, f), f.liveness, n.livenessFailures),
        Counted(ReadinessRan(forced, f), f.readiness, n.readinessFailures),
        if PassiveRan(n, forced) then Some(CheckedRuntime(s, n.runtime.value, status, now)) else n.runtime)
  }

  function CheckedRuntime(s: Settings, r: Runtime, status: NodeState, now: real): Runtime
  {
    Runtime(status, r.routable && IsRoutable(status), r.breaker, DropOld(r.samples, now - s.passiveWindow))
  }

  function CheckEvents(s: Settings, id: NodeId, n: Node, forced: bool, f: Findings, now: real): seq<Event>
  {
    if !forced && !IsChecked(n.status) then []
    else Effects(id, ConsentRan(forced, f) && ExpiryFound(n, now), FoundAuthError(s, n, forced, f, now))
  }

  // ---------------------------------------------------------------------------
  // The transition system
  // ---------------------------------------------------------------------------

  function Synced(n: Node, now: real): Node
  {
    var routable := IsRoutable(n.status) && ConsentIsActive(n.consent, now);
    n.(runtime := Some(
      if n.runtime.Some? then n.runtime.value.(state := n.status, routable := routable) else Runtime(n.status, routable, CB.FRESH, [])))
  }

  function SyncAll(nodes: map<NodeId, Node>, now: real): map<NodeId, Node>
  {
    map id | id in nodes :: Synced(nodes[id], now)
  }

  function WithConsent(n: Node, status: ConsentStatus): Node
  {
    if n.consent.Some? then n.(consent := Some(n.consent.value.(status := status))) else n
  }

  function Put(w: World, id: NodeId, n: Node, events: seq<Event>): World
  {
    World(w.nodes[id := n], w.log + events)
  }

  function Apply(s: Settings, w: World, op: Op): (World, Reply)
  {
    if op.Sync? then (w.(nodes := SyncAll(w.nodes, op.now)), Done)
    else if op.Enroll? then
      if op.node in w.nodes then (w, InvalidRequest)
      else (Put(w, op.node, Node(ConsentChallengeSent, Some(Consent(Sent, None)), false, 0, 0, None), [Enrolled(op.node)]), Done)
    else if op.node !in w.nodes then (w, NotFound)
    else
      var n := w.nodes[op.node];
      match op
      case Verify(id, proof, now) =>
        if n.consent.None? then (w, ConsentRequired)
        else if proof == Unreachable then (w, UpstreamFailed)
        else if proof == Bad then
          (Put(w, id, WithConsent(n, Failed).(status := Quarantined), [VerifyFailed(id)]), ConsentRequired)
        else
          var expires := now + TtlDays(s.recheckInterval) as real * DAY;
          (Put(w, id, n.(status := Verified, consent := Some(Consent(Proven, Some(expires)))), [VerifyOk(id, expires)]), Done)
      case Revoke(id) =>
        if n.consent.None? then (w, NotFound)
        else
          var row := WithConsent(n, Withdrawn).(status := Revoked);
          (Put(w, id, row.(runtime := if n.runtime.Some? then Some(n.runtime.value.(state := Revoked, routable := false)) else None),
            [ConsentRevoked(id)]), Done)
      case Block(id, now) =>
        (Put(w, id, Unrouted(n, now).(status := Blacklisted, blocked := true), []), Done)
      case Lift(id) =>
        if !n.blocked then (w, InvalidRequest)
        else (Put(w, id, n.(status := PendingConsent, blocked := false), []), Done)
      case SetDraining(id, draining) =>
        if n.status in {Candidate, PendingConsent} then (w, InvalidRequest)
        else (Put(w, id, n.(status := if draining then Draining else Verified), []), Done)
      case Observe(id, ok, status, now) =>
        if n.runtime.None? then (w, Done)
        else
          var noted := n.(runtime := Some(Noted(s, n.runtime.value, ok, status, now)));
          if HasRefusal(noted.runtime.value.samples) && noted.runtime.value.routable then
            (Put(w, id, Unrouted(noted, now).(status := Blacklisted, blocked := true, consent := FailIfProven(n.consent)),
              [AutoBlacklisted(id)]), Done)
          else (Put(w, id, noted, []), Done)
      case Check(id, forced, findings, now) =>
        (Put(w, id, Checked(s, n, forced, findings, now), CheckEvents(s, id, n, forced, findings, now)), Done)
      case Look(id, now) => (Put(w, id, Asked(s, n, now), []), Done)
      case Acquire(id, now) =>
        if MayServe(s, n, now) then (Put(w, id, Asked(s, n, now), [Granted(id, now)]), Done)
        else (Put(w, id, Asked(s, n, now), []), Denied)
  }

  /** Out of the rotation at once, before the next synchronisation, with the breaker forced open. */
  function Unrouted(n: Node, now: real): Node
  {
    if n.runtime.None? then n
    else n.(runtime := Some(n.runtime.value.(routable := false, breaker := CB.Tripped(n.runtime.value.breaker, now))))
  }

  /** The sample window and the breaker after one more exchange. */
  function Noted(s: Settings, r: Runtime, ok: bool, status: int, now: real): Runtime
  {
    r.(samples := DropOld(r.samples + [Stamped(now, NR.Sample(ok, status))], now - s.passiveWindow),
       breaker := CB.Record(s.breaker, r.breaker, ok, now))
  }

  /** Considering a routable node for a request asks its breaker, which may spend a probe. */
  function Asked(s: Settings, n: Node, now: real): Node
  {
    if n.runtime.None? || !n.runtime.value.routable then n
    else n.(runtime := Some(n.runtime.value.(breaker := CB.Allow(s.breaker, n.runtime.value.breaker, now).0)))
  }

  function Step(s: Settings, w: World, op: Op): World
  {
    Apply(s, w, op).0
  }

  function After(s: Settings, w: World, ops: seq<Op>): World
  {
    if ops == [] then w else Step(s, After(s, w, ops[..|ops| - 1]), ops[|ops| - 1])
  }

  // ---------------------------------------------------------------------------
  // Consent as history
  // ---------------------------------------------------------------------------

  /** The events that take a proven consent away. */
  predicate Breaks(e: Event, id: NodeId)
  {
    e == ConsentRevoked(id) || e == VerifyFailed(id) || e == MarkedExpired(id) || e == AutoBlacklisted(id)
  }

  /** Event `j` is a successful proof that outlives `now` and nothing took it away since. */
  ghost predicate CoveredBy(log: seq<Event>, id: NodeId, now: real, j: nat)
  {
    && j < |log| && log[j].VerifyOk? && log[j].node == id && log[j].expires > now
    && forall k :: j < k < |log| ==> !Breaks(log[k], id) && !IsProofOf(log[k], id)
  }

  predicate IsProofOf(e: Event, id: NodeId)
  {
    e.VerifyOk? && e.node == id
  }

  ghost predicate Covered(log: seq<Event>, id: NodeId, now: real)
  {
    exists j: nat :: CoveredBy(log, id, now, j)
  }

  /** The end of the proof in force, if there is one. */
  function InForce(log: seq<Event>, id: NodeId): Option<real>
  {
    if log == [] then None
    else
      var last := log[|log| - 1];
      if IsProofOf(last, id) then Some(last.expires)
      else if Breaks(last, id) then None
      else InForce(log[..|log| - 1], id)
  }

  lemma {:induction false} InForceIsCovered(log: seq<Event>, id: NodeId, now: real)
    ensures Covered(log, id, now) <==> InForce(log, id).Some? && InForce(log, id).value > now
  {
    if log != [] {
      var front, last := log[..|log| - 1], log[|log| - 1];
      InForceIsCovered(front, id, now);
      if IsProofOf(last, id) {
        if last.expires > now {
          assert CoveredBy(log, id, now, |log| - 1);
        }
      } else if !Breaks(last, id) {
        if Covered(front, id, now) {
          var j: nat :| CoveredBy(front, id, now, j);
          assert CoveredBy(log, id, now, j);
        }
        if Covered(log, id, now) {
          var j: nat :| CoveredBy(log, id, now, j);
          assert j < |front| && front[j] == log[j];
          assert forall k :: j < k < |front| ==> front[k] == log[k];
          assert CoveredBy(front, id, now, j);
        }
      }
    }
  }

  /** The consent record and the history say the same, of known and of unknown nodes. */
  ghost predicate RecordMatches(w: World, id: NodeId)
  {
    InForce(w.log, id) == if id in w.nodes then ProofOf(w.nodes[id].consent) else None
  }

  function ProofOf(c: Option<Consent>): Option<real>
  {
    if c.Some? && c.value.status == Proven then c.value.expires else None
  }

  /** A proven consent always has an end. */
  predicate Limited(c: Option<Consent>)
  {
    c.Some? && c.value.status == Proven ==> c.value.expires.Some?
  }

  ghost predicate Sound(w: World)
  {
    && (forall id :: RecordMatches(w, id))
    && (forall id :: id in w.nodes ==> Limited(w.nodes[id].consent))
  }

  lemma InForceSnoc(log: seq<Event>, e: Event, id: NodeId)
    ensures InForce(log + [e], id) == if IsProofOf(e, id) then Some(e.expires) else if Breaks(e, id) then None else InForce(log, id)
  {
    assert (log + [e])[..|log|] == log;
  }

  lemma InForceSame(log: seq<Event>, id: NodeId)
    ensures InForce(log + [], id) == InForce(log, id)
  {
    assert log + [] == log;
  }

  lemma InForceTwo(log: seq<Event>, a: Event, b: Event, id: NodeId)
    requires (Breaks(a, id) && Breaks(b, id)) || (a.node != id && b.node != id)
    ensures InForce(log + ([a] + [b]), id) == if a.node == id then None else InForce(log, id)
  {
    assert log + ([a] + [b]) == log + [a] + [b];
    InForceSnoc(log + [a], b, id);
    InForceSnoc(log, a, id);
  }

  /** Events of one node leave the history of every other node as it was. */
  lemma {:induction false} InForceOthers(log: seq<Event>, events: seq<Event>, id: NodeId)
    requires forall i :: 0 <= i < |events| ==> events[i].node != id
    ensures InForce(log + events, id) == InForce(log, id)
  {
    if events == [] {
      assert log + events == log;
    } else {
      var front, last := events[..|events| - 1], events[|events| - 1];
      InForceOthers(log, front, id);
      InForceSnoc(log + front, last, id);
      assert log + events == log + front + [last];
    }
  }

  lemma PutSound(w: World, id: NodeId, n: Node, events: seq<Event>)
    requires Sound(w) && Limited(n.consent)
    requires forall i :: 0 <= i < |events| ==> events[i].node == id
    requires InForce(w.log + events, id) == ProofOf(n.consent)
    ensures Sound(Put(w, id, n, events))
  {
    var next := Put(w, id, n, events);
    forall other
      ensures RecordMatches(next, other)
    {
      assert RecordMatches(w, other);
      if other != id {
        InForceOthers(w.log, events, other);
      }
    }
  }

  lemma CheckSound(s: Settings, w: World, id: NodeId, forced: bool, f: Findings, now: real)
    requires Sound(w) && id in w.nodes
    ensures Sound(Put(w, id, Checked(s, w.nodes[id], forced, f, now), CheckEvents(s, id, w.nodes[id], forced, f, now)))
  {
    var n := w.nodes[id];
    assert RecordMatches(w, id);
    if !forced && !IsChecked(n.status) {
      InForceSame(w.log, id);
      PutSound(w, id, n, []);
    } else {
      var expired, refused := ConsentRan(forced, f) && ExpiryFound(n, now), FoundAuthError(s, n, forced, f, now);
      EffectsMatch(w.log, id, n.consent, expired, refused);
      PutSound(w, id, Checked(s, n, forced, f, now), Effects(id, expired, refused));
    }
  }

  lemma EffectsMatch(log: seq<Event>, id: NodeId, c: Option<Consent>, expired: bool, refused: bool)
    requires InForce(log, id) == ProofOf(c)
    requires expired ==> c.Some? && c.value.status == Proven
    ensures InForce(log + Effects(id, expired, refused), id) == ProofOf(AfterEffects(c, expired, refused))
  {
    if expired && refused {
      InForceTwo(log, MarkedExpired(id), AutoBlacklisted(id), id);
    } else if expired {
      InForceSnoc(log, MarkedExpired(id), id);
      assert Effects(id, expired, refused) == [MarkedExpired(id)];
    } else if refused {
      InForceSnoc(log, AutoBlacklisted(id), id);
      assert Effects(id, expired, refused) == [AutoBlacklisted(id)];
    } else {
      InForceSame(log, id);
      assert Effects(id, expired, refused) == [];
    }
  }

  /** Every operation keeps record and history in step. */
  lemma {:induction false} StepSound(s: Settings, w: World, op: Op)
    requires Sound(w)
    ensures Sound(Step(s, w, op))
  {
    if op.Sync? {
      SyncSound(w, op.now);
    } else if op.node !in w.nodes {
      if op.Enroll? {
        RowSound(s, w, op, Node(ConsentChallengeSent, Some(Consent(Sent, None)), false, 0, 0, None), [Enrolled(op.node)]);
      }
    } else if op.Check? {
      CheckSound(s, w, op.node, op.forced, op.findings, op.now);
    } else if op.Observe? {
      ObserveSound(s, w, op);
    } else if op.Look? || op.Acquire? {
      var n := w.nodes[op.node];
      RowSound(s, w, op, Asked(s, n, op.now), if op.Acquire? && MayServe(s, n, op.now) then [Granted(op.node, op.now)] else []);
    } else {
      RecordSound(s, w, op);
    }
  }

  /** A step that puts one row, with at most one event that says what happened to its consent. */
  lemma RowSound(s: Settings, w: World, op: Op, n: Node, events: seq<Event>)
    requires Sound(w) && !op.Sync? && |events| <= 1 && (events != [] ==> events[0].node == op.node)
    requires Limited(n.consent)
    requires ProofOf(n.consent) ==
      if events != [] && IsProofOf(events[0], op.node) then Some(events[0].expires)
      else if events != [] && Breaks(events[0], op.node) then None
      else if op.node in w.nodes then ProofOf(w.nodes[op.node].consent) else None
    ensures Sound(Put(w, op.node, n, events))
  {
    assert RecordMatches(w, op.node);
    if events == [] {
      InForceSame(w.log, op.node);
    } else {
      InForceSnoc(w.log, events[0], op.node);
      assert events == [events[0]];
    }
    PutSound(w, op.node, n, events);
  }

  lemma ObserveSound(s: Settings, w: World, op: Op)
    requires Sound(w) && op.Observe? && op.node in w.nodes
    ensures Sound(Step(s, w, op))
  {
    var n := w.nodes[op.node];
    if n.runtime.Some? {
      var noted := n.(runtime := Some(Noted(s, n.runtime.value, op.ok, op.status, op.now)));
      if HasRefusal(noted.runtime.value.samples) && noted.runtime.value.routable {
        RowSound(s, w, op, Unrouted(noted, op.now).(status := Blacklisted, blocked := true, consent := FailIfProven(n.consent)),
          [AutoBlacklisted(op.node)]);
      } else {
        RowSound(s, w, op, noted, []);
      }
    }
  }

  lemma RecordSound(s: Settings, w: World, op: Op)
    requires Sound(w) && (op.Verify? || op.Revoke? || op.Block? || op.Lift? || op.SetDraining? || op.Enroll?) && op.node in w.nodes
    ensures Sound(Step(s, w, op))
  {
    var next := Step(s, w, op);
    if next != w {
      var events := if op.Verify? || op.Revoke? then [next.log[|w.log|]] else [];
      RowSound(s, w, op, next.nodes[op.node], events);
      assert next == Put(w, op.node, next.nodes[op.node], events);
    }
  }

  lemma SyncSound(w: World, now: real)
    requires Sound(w)
    ensures Sound(w.(nodes := SyncAll(w.nodes, now)))
  {
    forall id
      ensures RecordMatches(w.(nodes := SyncAll(w.nodes, now)), id)
    {
      assert RecordMatches(w, id);
    }
  }

  lemma {:induction false} AlwaysSound(s: Settings, ops: seq<Op>)
    ensures Sound(After(s, EMPTY, ops))
  {
    if ops == [] {
      assert forall id :: RecordMatches(EMPTY, id);
    } else {
      AlwaysSound(s, ops[..|ops| - 1]);
      StepSound(s, After(s, EMPTY, ops[..|ops| - 1]), ops[|ops| - 1]);
    }
  }

  /** A consent counts as active exactly while the history has a proof that outlives the moment and
      that no revocation, failed proof, marked expiry or authorisation error has taken away since. */
  lemma {:induction false} ActiveMeansCovered(s: Settings, ops: seq<Op>, id: NodeId, now: real)
    ensures var w := After(s, EMPTY, ops);
      (id in w.nodes && ConsentIsActive(w.nodes[id].consent, now)) <==> Covered(w.log, id, now)
  {
    var w := After(s, EMPTY, ops);
    AlwaysSound(s, ops);
    assert RecordMatches(w, id);
    InForceIsCovered(w.log, id, now);
  }

  // ---------------------------------------------------------------------------
  // Whole-run safety
  // ---------------------------------------------------------------------------

  /** Every grant in the log was covered by the part of the log before it. */
  ghost predicate GrantsCovered(log: seq<Event>)
  {
    forall i :: 0 <= i < |log| && log[i].Granted? ==> Covered(log[..i], log[i].node, log[i].now)
  }

  lemma StepGrows(s: Settings, w: World, op: Op)
    ensures LogGrows(w.log, Step(s, w, op).log, op)
  {
  }

  lemma {:induction false} GrantSafety(s: Settings, ops: seq<Op>)
    ensures GrantsCovered(After(s, EMPTY, ops).log)
  {
    if ops != [] {
      var before, op := ops[..|ops| - 1], ops[|ops| - 1];
      var w := After(s, EMPTY, before);
      var next := Step(s, w, op);
      GrantSafety(s, before);
      if op.Acquire? {
        ActiveMeansCovered(s, before, op.node, op.now);
      }
      StepGrows(s, w, op);
      forall i | 0 <= i < |next.log| && next.log[i].Granted?
        ensures Covered(next.log[..i], next.log[i].node, next.log[i].now)
      {
        if i < |w.log| {
          assert next.log[..i] == w.log[..i];
        } else {
          assert next.log[..i] == w.log;
        }
      }
    }
  }

  /** Steps append to the log; only an acquisition appends a grant, and one at most. */
  ghost predicate LogGrows(before: seq<Event>, after: seq<Event>, op: Op)
  {
    && before <= after
    && (op.Acquire? ==> |after| <= |before| + 1)
    && (!op.Acquire? ==> forall i :: |before| <= i < |after| ==> !after[i].Granted?)
    && forall i :: |before| <= i < |after| && after[i].Granted? ==> after[i] == Granted(op.node, op.now)
  }

  // ---------------------------------------------------------------------------
  // Who can bring a node back
  // ---------------------------------------------------------------------------

  function Grants(log: seq<Event>, id: NodeId): nat
  {
    if log == [] then 0
    else
      var last := log[|log| - 1];
      Grants(log[..|log| - 1], id) + if last.Granted? && last.node == id then 1 else 0
  }

  lemma {:induction false} GrantsAppend(log: seq<Event>, events: seq<Event>, id: NodeId)
    requires forall i :: 0 <= i < |events| ==> !(events[i].Granted? && events[i].node == id)
    ensures Grants(log + events, id) == Grants(log, id)
  {
    if events == [] {
      assert log + events == log;
    } else {
      assert (log + events)[..|log + events| - 1] == log + events[..|events| - 1];
      GrantsAppend(log, events[..|events| - 1], id);
    }
  }

  /** The operations that can end an exclusion. */
  predicate Reopens(op: Op, id: NodeId)
  {
    match op
    case Verify(node, proof, _) => node == id && proof == Good
    case SetDraining(node, _) => node == id
    case Check(node, forced, _, _) => node == id && forced
    case _ => false
  }

  /** Registered, but in none of the states that periodic checks touch. */
  predicate Excluded(w: World, id: NodeId)
  {
    id in w.nodes && !IsChecked(w.nodes[id].status)
  }

  /** A node whose row is not routable is granted nothing. */
  lemma NoNewGrant(s: Settings, w: World, op: Op, id: NodeId)
    requires id in w.nodes && !IsRoutable(w.nodes[id].status)
    ensures Grants(Step(s, w, op).log, id) == Grants(w.log, id)
  {
    var next := Step(s, w, op);
    StepGrows(s, w, op);
    var events := next.log[|w.log|..];
    assert next.log == w.log + events;
    if op.Acquire? && op.node == id {
      assert events == [];
    }
    forall i | 0 <= i < |events|
      ensures !(events[i].Granted? && events[i].node == id)
    {
      assert events[i] == next.log[|w.log| + i];
    }
    GrantsAppend(w.log, events, id);
  }

  lemma ExclusionStep(s: Settings, w: World, op: Op, id: NodeId)
    requires Excluded(w, id) && !Reopens(op, id)
    ensures Excluded(Step(s, w, op), id)
  {
  }

  /** A quarantined, blacklisted, revoked or pending node gets no request until its owner proves
      ownership again, an operator changes its draining, or an operator forces a check. */
  lemma {:induction false} ExclusionLasts(s: Settings, w: World, ops: seq<Op>, id: NodeId)
    requires Excluded(w, id)
    requires forall i :: 0 <= i < |ops| ==> !Reopens(ops[i], id)
    ensures Excluded(After(s, w, ops), id)
    ensures Grants(After(s, w, ops).log, id) == Grants(w.log, id)
  {
    if ops != [] {
      ExclusionLasts(s, w, ops[..|ops| - 1], id);
      ExclusionStep(s, After(s, w, ops[..|ops| - 1]), ops[|ops| - 1], id);
      NoNewGrant(s, After(s, w, ops[..|ops| - 1]), ops[|ops| - 1], id);
    }
  }

  /** When a check puts a node back into rotation: after a clean run, or, oddly, on a mere
      DEGRADED finding, which outranks whatever stronger state the node was in. */
  lemma BackInRotation(s: Settings, n: Node, forced: bool, f: Findings, now: real)
    requires !IsRoutable(n.status)
    ensures IsRoutable(CheckedStatus(s, n, forced, f, now)) <==> (
      && (forced || n.status in {Unhealthy, Draining})
      && !FoundAuthError(s, n, forced, f, now) && !(ConsentRan(forced, f) && ConsentBroken(n, f, now)) && !FoundUnhealthy(s, n, forced, f, now)
      && (FoundDegraded(s, n, forced, f, now) || (AllPassed(n, forced, f, now) && Severity(n.status) > 1 && n.status != Draining)))
  {
  }

  /** Out of service: excluded, or draining. */
  predicate OutOfService(w: World, id: NodeId)
  {
    id in w.nodes && (w.nodes[id].status == Draining || !IsChecked(w.nodes[id].status))
  }

  /** A periodic check of the node in which liveness and readiness, as far as they are due, pass. */
  predicate ChecksFine(op: Op, id: NodeId)
  {
    op.Check? && op.node == id ==>
      (op.findings.livenessDue ==> op.findings.liveness.Passed?) && (op.findings.readinessDue ==> op.findings.readiness.Passed?)
  }

  lemma DrainingStep(s: Settings, w: World, op: Op, id: NodeId)
    requires OutOfService(w, id) && !Reopens(op, id) && ChecksFine(op, id)
    ensures OutOfService(Step(s, w, op), id)
  {
    if op.Check? && op.node == id {
      FineCheck(s, w.nodes[id], op.findings, op.now);
    }
  }

  lemma FineCheck(s: Settings, n: Node, f: Findings, now: real)
    requires n.status == Draining || !IsChecked(n.status)
    requires (f.livenessDue ==> f.liveness.Passed?) && (f.readinessDue ==> f.readiness.Passed?)
    ensures var status := CheckedStatus(s, n, false, f, now); status == Draining || !IsChecked(status)
  {
  }

  /** Passing checks never end a drain: as long as liveness and readiness pass, a draining node gets no
      request until one of the reopening operations. Failing them can end it (BackInRotation). */
  lemma {:induction false} DrainingLasts(s: Settings, w: World, ops: seq<Op>, id: NodeId)
    requires OutOfService(w, id)
    requires forall i :: 0 <= i < |ops| ==> !Reopens(ops[i], id) && ChecksFine(ops[i], id)
    ensures OutOfService(After(s, w, ops), id)
    ensures Grants(After(s, w, ops).log, id) == Grants(w.log, id)
  {
    if ops != [] {
      DrainingLasts(s, w, ops[..|ops| - 1], id);
      DrainingStep(s, After(s, w, ops[..|ops| - 1]), ops[|ops| - 1], id);
      NoNewGrant(s, After(s, w, ops[..|ops| - 1]), ops[|ops| - 1], id);
    }
  }

  /** After a synchronisation the flag in the pool is exactly what row and consent allow. */
  lemma SyncIsExact(s: Settings, w: World, now: real, id: NodeId)
    requires id in w.nodes
    ensures var n := Step(s, w, Sync(now)).nodes[id];
      && n.runtime.Some? && n.runtime.value.state == n.status
      && (n.runtime.value.routable <==> IsRoutable(n.status) && ConsentIsActive(n.consent, now))
      && n.runtime.value.breaker == BreakerOf(w.nodes[id])
    ensures MayServe(s, w.nodes[id], now) ==> MayServe(s, Step(s, w, Sync(now)).nodes[id], now)
  {
  }

  function BreakerOf(n: Node): CB.Breaker
  {
    if n.runtime.Some? then n.runtime.value.breaker else CB.FRESH
  }

  /** A proof holds one day for every 16 minutes of the recheck interval, 365 at most; but 90 days, not
      one, for an interval under 16 minutes. */
  lemma TtlRange(interval: real)
    requires interval >= 0.0
    ensures 1 <= TtlDays(interval) <= 365
    ensures TtlDays(interval) == if interval < 960.0 then 90 else Min(365, (interval / 960.0).Floor)
  {
    assert interval * 90.0 / 86400.0 == interval / 960.0;
    assert interval < 960.0 <==> interval / 960.0 < 1.0;
  }

  /** The node's breaker is open, since `since` or later. */
  predicate OpenSince(w: World, id: NodeId, since: real)
  {
    id in w.nodes && w.nodes[id].runtime.Some?
    && w.nodes[id].runtime.value.breaker.mode == CB.Open && since <= w.nodes[id].runtime.value.breaker.openedAt
  }

  /** The operation, if it reads the clock, does so within the open duration. */
  predicate Within(s: Settings, op: Op, since: real)
  {
    (op.Verify? || op.Block? || op.Observe? || op.Check? || op.Sync? || op.Look? || op.Acquire?) ==>
      since <= op.now < since + s.breaker.openFor
  }

  lemma CoolDownStep(s: Settings, w: World, op: Op, id: NodeId, since: real)
    requires OpenSince(w, id, since) && Within(s, op, since)
    ensures OpenSince(Step(s, w, op), id, since)
  {
  }

  lemma CoolDownGrants(s: Settings, w: World, op: Op, id: NodeId, since: real)
    requires OpenSince(w, id, since) && Within(s, op, since)
    ensures Grants(Step(s, w, op).log, id) == Grants(w.log, id)
  {
    var next := Step(s, w, op);
    StepGrows(s, w, op);
    var events := next.log[|w.log|..];
    assert next.log == w.log + events;
    if op.Acquire? && op.node == id {
      assert !MayServe(s, w.nodes[id], op.now);
      assert events == [];
    }
    forall i | 0 <= i < |events|
      ensures !(events[i].Granted? && events[i].node == id)
    {
      assert events[i] == next.log[|w.log| + i];
    }
    GrantsAppend(w.log, events, id);
  }

  /** For the open duration after a breaker was opened nothing brings the node back: no proof, no end of
      drain, no forced check. */
  lemma {:induction false} CoolDownHolds(s: Settings, w: World, ops: seq<Op>, id: NodeId, since: real)
    requires OpenSince(w, id, since)
    requires forall i :: 0 <= i < |ops| ==> Within(s, ops[i], since)
    ensures OpenSince(After(s, w, ops), id, since)
    ensures Grants(After(s, w, ops).log, id) == Grants(w.log, id)
  {
    if ops != [] {
      CoolDownHolds(s, w, ops[..|ops| - 1], id, since);
      CoolDownStep(s, After(s, w, ops[..|ops| - 1]), ops[|ops| - 1], id, since);
      CoolDownGrants(s, After(s, w, ops[..|ops| - 1]), ops[|ops| - 1], id, since);
    }
  }

  /** So after a block of a node in the pool. */
  lemma {:induction false} BlockKeepsOut(s: Settings, w: World, id: NodeId, since: real, ops: seq<Op>)
    requires id in w.nodes && w.nodes[id].runtime.Some?
    requires forall i :: 0 <= i < |ops| ==> Within(s, ops[i], since)
    ensures Grants(After(s, Step(s, w, Block(id, since)), ops).log, id) == Grants(w.log, id)
  {
    assert w.log + [] == w.log;
    CoolDownHolds(s, Step(s, w, Block(id, since)), ops, id, since);
  }

  /** And after a request that a routable node refused for lack of authorisation. */
  lemma {:induction false} RefusalKeepsOut(s: Settings, w: World, id: NodeId, ok: bool, status: int, since: real, ops: seq<Op>)
    requires id in w.nodes && w.nodes[id].runtime.Some? && w.nodes[id].runtime.value.routable
    requires (status == 401 || status == 403) && 0.0 <= s.passiveWindow
    requires forall i :: 0 <= i < |ops| ==> Within(s, ops[i], since)
    ensures var refused := Step(s, w, Observe(id, ok, status, since));
      && refused.nodes[id].status == Blacklisted
      && Grants(After(s, refused, ops).log, id) == Grants(w.log, id)
  {
    var r, sample := w.nodes[id].runtime.value, Stamped(since, NR.Sample(ok, status));
    DropOldKeepsLast(r.samples, sample, since - s.passiveWindow);
    assert NR.IsRefusal(sample.item) && sample in Noted(s, r, ok, status, since).samples;
    var refused := Step(s, w, Observe(id, ok, status, since));
    assert refused.log == w.log + [AutoBlacklisted(id)];
    GrantsAppend(w.log, [AutoBlacklisted(id)], id);
    CoolDownHolds(s, refused, ops, id, since);
  }

  lemma {:induction false} DropOldKeepsLast<T>(events: seq<Stamped<T>>, last: Stamped<T>, cutoff: real)
    requires cutoff <= last.at
    ensures last in DropOld(events + [last], cutoff)
  {
    DropOldSnoc(events, last, cutoff);
  }

  /** A health check leaves the breaker alone, also one that blacklists the node. */
  lemma CheckLeavesBreaker(s: Settings, n: Node, forced: bool, f: Findings, now: real)
    ensures BreakerOf(Checked(s, n, forced, f, now)) == BreakerOf(n)
  {
  }

  // ---------------------------------------------------------------------------
  // Where the exclusions leak
  // ---------------------------------------------------------------------------

  lemma AfterSnoc(s: Settings, w: World, ops: seq<Op>, op: Op)
    ensures After(s, w, ops + [op]) == Step(s, After(s, w, ops), op)
  {
    assert (ops + [op])[..|ops|] == ops;
  }

  lemma AfterThree(s: Settings, w: World, a: Op, b: Op, c: Op)
    ensures After(s, w, [a, b, c]) == Step(s, Step(s, Step(s, w, a), b), c)
  {
    AfterSnoc(s, w, [], a);
    AfterSnoc(s, w, [a], b);
    AfterSnoc(s, w, [a, b], c);
    assert [] + [a] == [a] && [a] + [b] == [a, b] && [a, b] + [c] == [a, b, c];
  }

  /** The ordinary way in: enrol, prove, synchronise, serve. */
  lemma {:induction false} ProofServes(s: Settings, w: World, id: NodeId, now: real)
    requires id !in w.nodes
    ensures var expires := now + TtlDays(s.recheckInterval) as real * DAY;
      After(s, Step(s, w, Enroll(id)), [Verify(id, Good, now), Sync(now), Acquire(id, now)]).log
        == w.log + [Enrolled(id)] + [VerifyOk(id, expires)] + [Granted(id, now)]
  {
    assert TtlDays(s.recheckInterval) >= 1;
    var enrolled := Step(s, w, Enroll(id));
    AfterThree(s, enrolled, Verify(id, Good, now), Sync(now), Acquire(id, now));
    SyncAcquire(s, Step(s, enrolled, Verify(id, Good, now)), id, now);
  }

  /** Ending a drain, even one that was never begun, readmits any node, whatever excluded it, exactly
      if its status is not one that still waits for consent, the consent record is still active, and
      its breaker lets the request through. */
  lemma {:induction false} UndrainReadmits(s: Settings, w: World, id: NodeId, now: real)
    requires id in w.nodes
    ensures var n := w.nodes[id];
      After(s, w, [SetDraining(id, false), Sync(now), Acquire(id, now)]).log
        == if n.status !in {Candidate, PendingConsent} && ConsentIsActive(n.consent, now) && CB.Allow(s.breaker, BreakerOf(n), now).1
           then w.log + [Granted(id, now)] else w.log
    ensures Step(s, w, SetDraining(id, false)).nodes[id]
      == if w.nodes[id].status in {Candidate, PendingConsent} then w.nodes[id] else w.nodes[id].(status := Verified)
  {
    AfterThree(s, w, SetDraining(id, false), Sync(now), Acquire(id, now));
    SyncAcquire(s, Step(s, w, SetDraining(id, false)), id, now);
    assert w.log + [] == w.log;
  }

  function Quiet(proof: Proof, readiness: Answer): Findings
  {
    Findings(false, Passed, readiness.Refused?, readiness, true, proof, false, Passed)
  }

  /** A failed periodic re-check quarantines but leaves the consent record and the breaker as they
      were, so that way is open at once. */
  lemma {:induction false} QuarantineEscape(s: Settings, w: World, id: NodeId, now: real)
    requires id in w.nodes && MayServe(s, w.nodes[id], now) && w.nodes[id].consent.value.expires.Some?
    ensures var quarantined := Step(s, w, Check(id, false, Quiet(Bad, Passed), now));
      && quarantined.nodes[id].status == Quarantined
      && After(s, quarantined, [SetDraining(id, false), Sync(now), Acquire(id, now)]).log == quarantined.log + [Granted(id, now)]
  {
    var quarantined := Step(s, w, Check(id, false, Quiet(Bad, Passed), now));
    UndrainReadmits(s, quarantined, id, now);
  }

  /** A block set by an operator forces the breaker of a node in the pool open: the same way is open
      exactly once the open duration has passed (and probes are allowed), or at once if the node was
      not in the pool, if the consent is active then. The block stays on record. */
  lemma {:induction false} BlockEscape(s: Settings, w: World, id: NodeId, now: real, later: real)
    requires id in w.nodes
    ensures var blocked := Step(s, w, Block(id, now));
      var end := After(s, blocked, [SetDraining(id, false), Sync(later), Acquire(id, later)]);
      && blocked.nodes[id].status == Blacklisted && id in end.nodes && end.nodes[id].blocked
      && end.log == if ConsentIsActive(w.nodes[id].consent, later) && CooledDown(s, w.nodes[id], now, later)
                    then w.log + [Granted(id, later)] else w.log
  {
    var blocked := Step(s, w, Block(id, now));
    assert w.log + [] == w.log;
    UndrainReadmits(s, blocked, id, later);
    AfterThree(s, blocked, SetDraining(id, false), Sync(later), Acquire(id, later));
  }

  /** The breaker that a block forced open lets a probe through again; a node that was not in the pool
      gets a fresh one. */
  predicate CooledDown(s: Settings, n: Node, blockedAt: real, now: real)
  {
    n.runtime.None? || (s.breaker.openFor <= now - blockedAt && 0 < s.breaker.probes)
  }

  /** A synchronisation and an acquisition grant exactly if row, consent and breaker allow it. */
  lemma SyncAcquire(s: Settings, w: World, id: NodeId, now: real)
    requires id in w.nodes
    ensures var n := w.nodes[id];
      Step(s, Step(s, w, Sync(now)), Acquire(id, now)).log
        == if IsRoutable(n.status) && ConsentIsActive(n.consent, now) && CB.Allow(s.breaker, BreakerOf(n), now).1
           then w.log + [Granted(id, now)] else w.log
  {
    assert w.log + [] == w.log;
  }

  /** The row after its block is lifted. */
  function Lifted(n: Node): Node
  {
    n.(status := PendingConsent, blocked := false)
  }

  /** The findings on which a forced check puts a lifted node back into rotation: a DEGRADED one, and
      none that is stronger. A clean check is not among them. */
  predicate Readmitting(s: Settings, n: Node, f: Findings, now: real)
  {
    && !FoundAuthError(s, n, true, f, now) && !ConsentBroken(n, f, now)
    && !FoundUnhealthy(s, n, true, f, now) && FoundDegraded(s, n, true, f, now)
  }

  /** A lifted node is promised to need a new proof. A forced check, a synchronisation and an acquisition
      readmit it without one exactly if the check finds it degraded, nothing stronger, and its breaker
      lets the request through. */
  lemma {:induction false} LiftReadmits(s: Settings, w: World, id: NodeId, f: Findings, now: real)
    requires id in w.nodes && w.nodes[id].blocked
    ensures var n, lifted := Lifted(w.nodes[id]), Step(s, w, Lift(id));
      var end := After(s, lifted, [Check(id, true, f, now), Sync(now), Acquire(id, now)]);
      && lifted.nodes[id] == n
      && (end.log == w.log + [Granted(id, now)] <==> Readmitting(s, n, f, now) && CB.Allow(s.breaker, BreakerOf(n), now).1)
      && (Grants(end.log, id) > Grants(w.log, id) <==> Readmitting(s, n, f, now) && CB.Allow(s.breaker, BreakerOf(n), now).1)
  {
    var n, lifted := Lifted(w.nodes[id]), Step(s, w, Lift(id));
    assert w.log + [] == w.log;
    AfterThree(s, lifted, Check(id, true, f, now), Sync(now), Acquire(id, now));
    BackInRotation(s, n, true, f, now);
    CheckLeavesBreaker(s, n, true, f, now);
    var checked := Step(s, lifted, Check(id, true, f, now));
    SyncAcquire(s, checked, id, now);
    LiftedCheck(s, lifted, id, f, now);
    assert (checked.log + [Granted(id, now)])[..|checked.log|] == checked.log;
  }

  /** What a forced check of a lifted row does to consent and history. */
  lemma LiftedCheck(s: Settings, w: World, id: NodeId, f: Findings, now: real)
    requires id in w.nodes && w.nodes[id].status == PendingConsent
    ensures var n, checked := w.nodes[id], Step(s, w, Check(id, true, f, now));
      && checked.nodes[id] == Checked(s, n, true, f, now)
      && Grants(checked.log, id) == Grants(w.log, id)
      && (Readmitting(s, n, f, now) ==> checked.log == w.log && checked.nodes[id].consent == n.consent && ConsentIsActive(n.consent, now))
  {
    var events := CheckEvents(s, id, w.nodes[id], true, f, now);
    GrantsAppend(w.log, events, id);
    assert Readmitting(s, w.nodes[id], f, now) ==> events == [];
    assert w.log + [] == w.log;
  }

  /** There is such a check: after a block has cooled down, one whose readiness part fails, when the
      failure counter reaches its threshold and the passive window is empty. */
  lemma {:induction false} LiftEscape(s: Settings, w: World, id: NodeId, now: real, later: real)
    requires id in w.nodes && ConsentIsActive(w.nodes[id].consent, later) && w.nodes[id].consent.value.expires.Some?
    requires w.nodes[id].readinessFailures + 1 >= s.readinessThreshold && s.errorThreshold >= 0.0
    requires CooledDown(s, w.nodes[id], now, later)
    requires w.nodes[id].runtime.Some? ==> DropOld(w.nodes[id].runtime.value.samples, later - s.passiveWindow) == []
    ensures var lifted := Step(s, Step(s, w, Block(id, now)), Lift(id));
      After(s, lifted, [Check(id, true, Quiet(Good, Refused(500)), later), Sync(later), Acquire(id, later)]).log
        == w.log + [Granted(id, later)]
  {
    var blocked := Step(s, w, Block(id, now));
    assert w.log + [] == w.log;
    assert !HasRefusal([]);
    assert Readmitting(s, Lifted(blocked.nodes[id]), Quiet(Good, Refused(500)), later);
    LiftReadmits(s, blocked, id, Quiet(Good, Refused(500)), later);
  }
}
