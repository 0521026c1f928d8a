/** The per-node circuit breaker: a three-state machine over a trimmed deque of results. */
module CircuitBreaker {
  import opened Common
  import opened Windows

  datatype Settings = Settings(window: real, minimum: int, threshold: real, openFor: real, probes: int)

  /** `minimum_requests` is at least 1: the error share of an empty window is not defined. */
  type Config = c: Settings | 1 <= c.minimum witness Settings(30.0, 10, 0.5, 60.0, 1)

  datatype Mode = Closed | HalfOpen | Open

  datatype Breaker = Breaker(mode: Mode, events: seq<Stamped<bool>>, openedAt: real, inFlight: nat, failures: nat)

  const FRESH := Breaker(Closed, [], 0.0, 0, 0)

  function Failures(events: seq<Stamped<bool>>): nat
  {
    if events == [] then 0 else Failures(events[..|events| - 1]) + (if events[|events| - 1].item then 0 else 1)
  }

  /** The error share of a window, 0 below the minimum number of requests. */
  function Rate(cfg: Config, events: seq<Stamped<bool>>): real
  {
    if |events| < cfg.minimum then 0.0 else Failures(events) as real / |events| as real
  }

  function Tripped(b: Breaker, now: real): Breaker
  {
    b.(mode := Open, openedAt := now, inFlight := 0)
  }

  function Record(cfg: Config, b: Breaker, ok: bool, now: real): Breaker
  {
    var seen := b.(events := DropOld(b.events + [Stamped(now, ok)], now - cfg.window));
    var noted :=
      if ok then
        if b.mode == HalfOpen then seen.(failures := 0, mode := Closed, inFlight := 0) else seen.(failures := 0)
      else
        var counted := seen.(failures := b.failures + 1);
        if b.mode == HalfOpen then Tripped(counted, now) else counted;
    if noted.mode == Closed && cfg.threshold <= Rate(cfg, noted.events) then Tripped(noted, now) else noted
  }

  function Allow(cfg: Config, b: Breaker, now: real): (Breaker, bool)
  {
    var seen := b.(events := DropOld(b.events, now - cfg.window));
    if b.mode == Closed then (seen, true)
    else if b.mode == Open && now - b.openedAt < cfg.openFor then (seen, false)
    else
      var half := if b.mode == Open then seen.(mode := HalfOpen, inFlight := 0) else seen;
      if cfg.probes <= half.inFlight then (half, false) else (half.(inFlight := half.inFlight + 1), true)
  }

  // ---------------------------------------------------------------------------
  // The class
  // ---------------------------------------------------------------------------

  class CircuitBreaker {
    const cfg: Config
    var mode: Mode
    var events: seq<Stamped<bool>>
    var openedAt: real
    var inFlight: nat
    var failures: nat

    function State(): Breaker
      reads this
    {
      Breaker(mode, events, openedAt, inFlight, failures)
    }

    constructor (cfg: Config)
      ensures this.cfg == cfg && State() == FRESH
    {
      this.cfg := cfg;
      mode, events, openedAt, inFlight, failures := Closed, [], 0.0, 0, 0;
    }

    method Trim(now: real)
      modifies this`events
      ensures events == DropOld(old(events), now - cfg.window)
    {
      events := Windows.Trim(events, now - cfg.window);
    }

    method Trip(now: real)
      modifies this`mode, this`openedAt, this`inFlight
      ensures State() == Tripped(old(State()), now)
    {
      mode, openedAt, inFlight := Open, now, 0;
    }

    method ErrorRate(now: real) returns (rate: real)
      modifies this`events
      ensures events == DropOld(old(events), now - cfg.window) && rate == Rate(cfg, events)
    {
      Trim(now);
      if |events| < cfg.minimum {
        return 0.0;
      }
      var failed := 0;
      for i := 0 to |events|
        invariant failed == Failures(events[..i])
      {
        assert events[..i + 1][..i] == events[..i];
        if !events[i].item {
          failed := failed + 1;
        }
      }
      assert events[..|events|] == events;
      rate := failed as real / |events| as real;
    }

    method RecordResult(ok: bool, now: real)
      modifies this
      ensures State() == Record(cfg, old(State()), ok, now)
    {
      events := events + [Stamped(now, ok)];
      Trim(now);
      if ok {
        failures := 0;
        if mode == HalfOpen {
          mode, inFlight := Closed, 0;
        }
      } else {
        failures := failures + 1;
        if mode == HalfOpen {
          Trip(now);
        }
      }
      if mode == Closed {
        DropOldTwice(old(events) + [Stamped(now, ok)], now - cfg.window, now - cfg.window);
        var rate := ErrorRate(now);
        if cfg.threshold <= rate {
          Trip(now);
        }
      }
    }

    method AllowRequest(now: real) returns (allowed: bool)
      modifies this
      ensures (State(), allowed) == Allow(cfg, old(State()), now)
    {
      Trim(now);
      if mode == Closed {
        return true;
      }
      if mode == Open {
        if cfg.openFor <= now - openedAt {
          mode, inFlight := HalfOpen, 0;
        } else {
          return false;
        }
      }
      if cfg.probes <= inFlight {
        return false;
      }
      inFlight := inFlight + 1;
      allowed := true;
    }

    method Reset()
      modifies this
      ensures State() == old(State()).(mode := Closed, events := [], inFlight := 0, failures := 0)
    {
      mode, events, inFlight, failures := Closed, [], 0, 0;
    }
  }

  // ---------------------------------------------------------------------------
  // Whole runs
  // ---------------------------------------------------------------------------

  datatype Op = RecordOp(ok: bool) | AllowOp | ForceOpenOp | ResetOp

  datatype Call = Call(op: Op, now: real)

  function Apply(cfg: Config, b: Breaker, call: Call): (Breaker, bool)
  {
    match call.op
    case RecordOp(ok) => (Record(cfg, b, ok, call.now), false)
    case AllowOp => Allow(cfg, b, call.now)
    case ForceOpenOp => (Tripped(b, call.now), false)
    case ResetOp => (b.(mode := Closed, events := [], inFlight := 0, failures := 0), false)
  }

  function After(cfg: Config, calls: seq<Call>): Breaker
  {
    if calls == [] then FRESH else Apply(cfg, After(cfg, calls[..|calls| - 1]), calls[|calls| - 1]).0
  }

  /** The clock never goes back. */
  ghost predicate Timely(calls: seq<Call>)
  {
    forall i, j :: 0 <= i < j < |calls| ==> calls[i].now <= calls[j].now
  }

  /** Every result recorded since the last reset. */
  function Recorded(calls: seq<Call>): seq<Stamped<bool>>
  {
    if calls == [] then []
    else
      var last := calls[|calls| - 1];
      match last.op
      case RecordOp(ok) => Recorded(calls[..|calls| - 1]) + [Stamped(last.now, ok)]
      case ResetOp => []
      case _ => Recorded(calls[..|calls| - 1])
  }

  /** Whether call i of a run was an `allow` that let a request through. */
  predicate Granted(cfg: Config, calls: seq<Call>, i: nat)
    requires i < |calls|
  {
    calls[i].op.AllowOp? && Apply(cfg, After(cfg, calls[..i]), calls[i]).1
  }

  /** Whether call i opened the breaker: it was not open before or was forced open again. */
  predicate Opened(cfg: Config, calls: seq<Call>, i: nat)
    requires i < |calls|
  {
    && After(cfg, calls[..i + 1]).mode == Open
    && (calls[i].op.ForceOpenOp? || After(cfg, calls[..i]).mode != Open)
  }

  /** The successful `allow` calls since the breaker last became half open, 0 elsewhere. */
  function Probes(cfg: Config, calls: seq<Call>): nat
  {
    if calls == [] then 0
    else
      var front := calls[..|calls| - 1];
      if After(cfg, calls).mode != HalfOpen then 0
      else
        (if After(cfg, front).mode == HalfOpen then Probes(cfg, front) else 0)
        + (if Granted(cfg, calls, |calls| - 1) then 1 else 0)
  }

  lemma {:induction false} RecordedTimes(calls: seq<Call>)
    requires Timely(calls)
    ensures Chronological(Recorded(calls))
    ensures forall e :: e in Recorded(calls) ==> calls != [] && e.at <= calls[|calls| - 1].now
  {
    if calls != [] {
      var front := calls[..|calls| - 1];
      RecordedTimes(front);
      if front != [] {
        assert calls[|front| - 1].now <= calls[|front|].now;
      }
    }
  }

  /** One call keeps the deque in step with the history, for windows from its time on. */
  lemma StepTracks(cfg: Config, b: Breaker, h: seq<Stamped<bool>>, call: Call)
    requires Tracks(b.events, h, call.now - cfg.window)
    requires call.op.RecordOp? ==> Chronological(h + [Stamped(call.now, call.op.ok)])
    ensures Tracks(Apply(cfg, b, call).0.events,
      (match call.op case RecordOp(ok) => h + [Stamped(call.now, ok)] case ResetOp => [] case _ => h),
      call.now - cfg.window)
  {
    var cutoff := call.now - cfg.window;
    match call.op {
      case RecordOp(ok) =>
        AppendTracks(b.events, h, Stamped(call.now, ok), cutoff);
        TrimTracks(b.events + [Stamped(call.now, ok)], h + [Stamped(call.now, ok)], cutoff, cutoff);
      case AllowOp =>
        TrimTracks(b.events, h, cutoff, cutoff);
      case ForceOpenOp =>
      case ResetOp =>
    }
  }

  /** Trimmed deque against full history: whatever calls trimmed before, a window that
      starts at or after the current one holds exactly the recorded results it should. */
  lemma {:induction false} WindowIsHistory(cfg: Config, calls: seq<Call>, now: real)
    requires Timely(calls) && (calls != [] ==> calls[|calls| - 1].now <= now)
    ensures Tracks(After(cfg, calls).events, Recorded(calls), now - cfg.window)
  {
    if calls != [] {
      var front, last := calls[..|calls| - 1], calls[|calls| - 1];
      WindowIsHistory(cfg, front, last.now);
      RecordedTimes(calls);
      StepTracks(cfg, After(cfg, front), Recorded(front), last);
    }
  }

  /** Hence the error rate, at any call, is the share of failures among all results ever
      recorded (since a reset) that fall into the window. */
  lemma RateIsHistoryRate(cfg: Config, calls: seq<Call>, now: real)
    requires Timely(calls) && (calls != [] ==> calls[|calls| - 1].now <= now)
    ensures Rate(cfg, DropOld(After(cfg, calls).events, now - cfg.window))
         == Rate(cfg, Since(Recorded(calls), now - cfg.window))
  {
    WindowIsHistory(cfg, calls, now);
  }

  /** After every `record`, a closed breaker has too few recent results to judge or an error
      share below the threshold, counted over the full history. */
  lemma ClosedMeansBelowThreshold(cfg: Config, calls: seq<Call>)
    requires calls != [] && Timely(calls) && calls[|calls| - 1].op.RecordOp?
    requires After(cfg, calls).mode == Closed
    ensures var recent := Since(Recorded(calls), calls[|calls| - 1].now - cfg.window);
      Rate(cfg, recent) < cfg.threshold
      && (|recent| < cfg.minimum || Failed(recent) as real / |recent| as real < cfg.threshold)
  {
    var front, last := calls[..|calls| - 1], calls[|calls| - 1];
    var cutoff := last.now - cfg.window;
    WindowIsHistory(cfg, calls, last.now);
    DropOldTwice(After(cfg, front).events + [Stamped(last.now, last.op.ok)], cutoff, cutoff);
    FailedIsFailures(Since(Recorded(calls), cutoff));
  }

  /** The probe counter counts the grants since the breaker became half open, is 0 outside
      that state, and never exceeds the configured number of probes. */
  lemma {:induction false} ProbesAreBounded(cfg: Config, calls: seq<Call>)
    ensures After(cfg, calls).inFlight == Probes(cfg, calls)
    ensures After(cfg, calls).mode != HalfOpen ==> After(cfg, calls).inFlight == 0
    ensures After(cfg, calls).inFlight <= Max(0, cfg.probes)
  {
    if calls != [] {
      ProbesAreBounded(cfg, calls[..|calls| - 1]);
    }
  }

  /** While call i's opening is not undone, the breaker is open since call i or later, or the
      cool-down that follows it has passed. */
  lemma {:induction false} CoolDown(cfg: Config, calls: seq<Call>, i: nat, k: nat)
    requires i < k <= |calls| && Timely(calls) && Opened(cfg, calls, i)
    requires forall j :: i < j < k ==> !calls[j].op.ResetOp?
    ensures After(cfg, calls[..k]).mode == Open ==> calls[i].now <= After(cfg, calls[..k]).openedAt
    ensures After(cfg, calls[..k]).mode != Open ==> cfg.openFor <= calls[k - 1].now - calls[i].now
  {
    assert calls[..k][..k - 1] == calls[..k - 1];
    if i + 1 < k {
      CoolDown(cfg, calls, i, k - 1);
      assert calls[k - 2].now <= calls[k - 1].now && calls[i].now <= calls[k - 2].now;
      CoolDownStep(cfg, After(cfg, calls[..k - 1]), calls[k - 1], calls[i].now, calls[k - 2].now);
    } else {
      OpeningIsNow(cfg, After(cfg, calls[..i]), calls[i]);
    }
  }

  lemma {:induction false} CoolDownStep(cfg: Config, b: Breaker, call: Call, since: real, before: real)
    requires since <= before <= call.now && !call.op.ResetOp?
    requires if b.mode == Open then since <= b.openedAt else cfg.openFor <= before - since
    ensures var next := Apply(cfg, b, call).0;
      if next.mode == Open then since <= next.openedAt else cfg.openFor <= call.now - since
  {
  }

  lemma {:induction false} OpeningIsNow(cfg: Config, b: Breaker, call: Call)
    requires Apply(cfg, b, call).0.mode == Open && (call.op.ForceOpenOp? || b.mode != Open)
    ensures Apply(cfg, b, call).0.openedAt == call.now
  {
  }

  /** No request passes in the `open_duration` seconds after a trip, whatever results are
      recorded meanwhile, unless the breaker is reset. */
  lemma NoGrantWhileOpen(cfg: Config, calls: seq<Call>, i: nat, j: nat)
    requires i < j < |calls| && Timely(calls) && Opened(cfg, calls, i) && Granted(cfg, calls, j)
    requires forall r :: i < r < j ==> !calls[r].op.ResetOp?
    ensures cfg.openFor <= calls[j].now - calls[i].now
  {
    CoolDown(cfg, calls, i, j);
  }

  lemma {:induction false} SpentStep(cfg: Config, b: Breaker, call: Call)
    requires b.mode == HalfOpen && cfg.probes <= b.inFlight && call.op.AllowOp?
    ensures var (next, allowed) := Apply(cfg, b, call); next.mode == HalfOpen && next.inFlight == b.inFlight && !allowed
  {
  }

  /** A spent probe is not given back: a half-open breaker whose probes are used up answers
      no to every further `allow`, however late, until a result is recorded. */
  lemma {:induction false} SpentProbesBlock(cfg: Config, calls: seq<Call>, more: seq<Call>)
    requires After(cfg, calls).mode == HalfOpen && cfg.probes <= After(cfg, calls).inFlight
    requires forall i :: 0 <= i < |more| ==> more[i].op.AllowOp?
    ensures After(cfg, calls + more).mode == HalfOpen
    ensures cfg.probes <= After(cfg, calls + more).inFlight
    ensures forall j :: |calls| <= j < |calls + more| ==> !Granted(cfg, calls + more, j)
  {
    if more == [] {
      assert calls + more == calls;
    } else {
      var front := more[..|more| - 1];
      var all, shorter := calls + more, calls + front;
      assert all[..|all| - 1] == shorter;
      SpentProbesBlock(cfg, calls, front);
      SpentStep(cfg, After(cfg, shorter), all[|shorter|]);
      forall j | |calls| <= j < |all| ensures !Granted(cfg, all, j) {
        if j < |shorter| {
          assert all[..j] == shorter[..j] && !Granted(cfg, shorter, j);
        }
      }
    }
  }

  // ---------------------------------------------------------------------------
  // When the breaker opens and when it recovers
  // ---------------------------------------------------------------------------

  /** The number of failed results, counted by their places. */
  function Failed(results: seq<Stamped<bool>>): nat
  {
    |FailedAt(results)|
  }

  function FailedAt(results: seq<Stamped<bool>>): set<nat>
  {
    set i: nat | i < |results| && !results[i].item
  }

  lemma {:induction false} FailedIsFailures(results: seq<Stamped<bool>>)
    ensures Failures(results) == Failed(results)
  {
    if results != [] {
      var front, n := results[..|results| - 1], |results| - 1;
      FailedIsFailures(front);
      assert FailedAt(results) == if results[n].item then FailedAt(front) else FailedAt(front) + {n};
    }
  }

  /** Enough recent results, and as large a share of failures among them as the threshold. */
  predicate TooManyFailures(cfg: Config, recent: seq<Stamped<bool>>)
  {
    cfg.threshold <= 0.0 || (cfg.minimum <= |recent| && cfg.threshold <= Failed(recent) as real / |recent| as real)
  }

  lemma {:induction false} RateReached(cfg: Config, recent: seq<Stamped<bool>>)
    ensures cfg.threshold <= Rate(cfg, recent) <==> TooManyFailures(cfg, recent)
  {
    FailedIsFailures(recent);
    if cfg.minimum <= |recent| {
      NotNegative(Failures(recent), |recent|);
    }
  }

  lemma NotNegative(a: nat, b: nat)
    requires 0 < b
    ensures 0.0 <= a as real / b as real
  {
  }

  /** A result opens the breaker exactly if it fails a probe, or if the breaker would be closed with it
      and too many of the results of the last window, over the full history, have failed. Otherwise a
      successful probe closes it, with nothing in flight, and any other result leaves its state alone. */
  lemma {:induction false} RecordDecides(cfg: Config, calls: seq<Call>)
    requires calls != [] && Timely(calls) && calls[|calls| - 1].op.RecordOp?
    ensures var last := calls[|calls| - 1];
      var before, after := After(cfg, calls[..|calls| - 1]), After(cfg, calls);
      var opens := if before.mode == HalfOpen && !last.op.ok then true
        else before.mode != Open && TooManyFailures(cfg, Since(Recorded(calls), last.now - cfg.window));
      && (opens ==> after.mode == Open && after.openedAt == last.now && after.inFlight == 0)
      && (!opens && before.mode == HalfOpen ==> after.mode == Closed && after.inFlight == 0)
      && (!opens && before.mode != HalfOpen ==>
            after.mode == before.mode && after.openedAt == before.openedAt && after.inFlight == before.inFlight)
  {
    var front, last := calls[..|calls| - 1], calls[|calls| - 1];
    var cutoff := last.now - cfg.window;
    WindowIsHistory(cfg, calls, last.now);
    DropOldTwice(After(cfg, front).events + [Stamped(last.now, last.op.ok)], cutoff, cutoff);
    RateReached(cfg, Since(Recorded(calls), cutoff));
  }

  /** When a request is let through: always if closed; if open, once the open duration has passed since it
      opened and if there are probes at all; if half open, while fewer requests have been let through since
      it became so than there are probes. */
  lemma {:induction false} GrantedExactly(cfg: Config, calls: seq<Call>)
    requires calls != [] && calls[|calls| - 1].op.AllowOp?
    ensures var front, now := calls[..|calls| - 1], calls[|calls| - 1].now;
      var before, after := After(cfg, front), After(cfg, calls);
      && (Granted(cfg, calls, |calls| - 1) <==>
            || before.mode == Closed
            || (before.mode == Open && cfg.openFor <= now - before.openedAt && 0 < cfg.probes)
            || (before.mode == HalfOpen && Probes(cfg, front) < cfg.probes))
      && after.mode == (if before.mode == Open && cfg.openFor <= now - before.openedAt then HalfOpen else before.mode)
  {
    ProbesAreBounded(cfg, calls[..|calls| - 1]);
  }

  /** Call i is the latest that opened the breaker. */
  ghost predicate OpenedLastAt(cfg: Config, calls: seq<Call>, i: nat)
  {
    i < |calls| && Opened(cfg, calls, i) && forall j :: i < j < |calls| ==> !Opened(cfg, calls, j)
  }

  /** What an open breaker counts from is the call that opened it last. */
  lemma {:induction false} OpenedAtIsLast(cfg: Config, calls: seq<Call>) returns (i: nat)
    requires After(cfg, calls).mode == Open
    ensures OpenedLastAt(cfg, calls, i) && After(cfg, calls).openedAt == calls[i].now
  {
    var front, n := calls[..|calls| - 1], |calls| - 1;
    assert calls[..n] == front && calls[..n + 1] == calls;
    if Opened(cfg, calls, n) {
      i := n;
      OpeningIsNow(cfg, After(cfg, front), calls[n]);
    } else {
      i := OpenedAtIsLast(cfg, front);
      forall j | 0 <= j < n
        ensures Opened(cfg, calls, j) <==> Opened(cfg, front, j)
      {
        assert calls[..j] == front[..j] && calls[..j + 1] == front[..j + 1];
      }
    }
  }

  /** A breaker recovers by itself: some time after it opened and with results recorded or not, a request
      that comes when the open duration has passed is let through, and a success of it closes the breaker
      unless too many of the recent results have failed. */
  lemma {:induction false} Recovers(cfg: Config, calls: seq<Call>, now: real, later: real)
    requires Timely(calls + [Call(AllowOp, now), Call(RecordOp(true), later)]) && 0 < cfg.probes
    requires After(cfg, calls).mode == Open && cfg.openFor <= now - After(cfg, calls).openedAt
    ensures var asked, noted := calls + [Call(AllowOp, now)], calls + [Call(AllowOp, now), Call(RecordOp(true), later)];
      && Granted(cfg, asked, |calls|)
      && (After(cfg, noted).mode == Closed <==> !TooManyFailures(cfg, Since(Recorded(noted), later - cfg.window)))
  {
    var asked, noted := calls + [Call(AllowOp, now)], calls + [Call(AllowOp, now), Call(RecordOp(true), later)];
    assert asked[..|asked| - 1] == calls && noted[..|noted| - 1] == asked;
    GrantedExactly(cfg, asked);
    RecordDecides(cfg, noted);
  }

  /** The number of failures at the end of the results. */
  function Trailing(results: seq<Stamped<bool>>): nat
  {
    if results == [] || results[|results| - 1].item then 0 else Trailing(results[..|results| - 1]) + 1
  }

  /** `consecutive_failures` counts the failures since the last success or reset. */
  lemma {:induction false} FailuresInARow(cfg: Config, calls: seq<Call>)
    ensures After(cfg, calls).failures == Trailing(Recorded(calls))
  {
    if calls != [] {
      var front, last := calls[..|calls| - 1], calls[|calls| - 1];
      FailuresInARow(cfg, front);
      if last.op.RecordOp? {
        assert Recorded(calls)[..|Recorded(front)|] == Recorded(front);
      }
    }
  }
}
