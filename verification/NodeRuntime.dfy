/** The state the gateway keeps of a node while it runs: slots, passive statistics, hourly budget. */
module NodeRuntime {
  import opened Common
  import opened Windows
  import CircuitBreaker

  /** One observed exchange. */
  datatype Sample = Sample(ok: bool, status: int)

  function Failures(samples: seq<Stamped<Sample>>): nat
  {
    if samples == [] then 0
    else Failures(samples[..|samples| - 1]) + (if samples[|samples| - 1].item.ok then 0 else 1)
  }

  /** The share of failed exchanges, 0 if there were none. */
  function ErrorShare(samples: seq<Stamped<Sample>>): real
  {
    if samples == [] then 0.0 else Failures(samples) as real / |samples| as real
  }

  function FailedAt(samples: seq<Stamped<Sample>>): set<nat>
  {
    set i: nat | i < |samples| && !samples[i].item.ok
  }

  /** The failures, counted by their places. */
  lemma {:induction false} FailuresAreAt(samples: seq<Stamped<Sample>>)
    ensures Failures(samples) == |FailedAt(samples)|
  {
    if samples != [] {
      var front, n := samples[..|samples| - 1], |samples| - 1;
      FailuresAreAt(front);
      assert FailedAt(samples) == if samples[n].item.ok then FailedAt(front) else FailedAt(front) + {n};
    }
  }

  predicate IsRefusal(s: Sample)
  {
    s.status == 401 || s.status == 403
  }

  predicate IsTimeout(s: Sample)
  {
    s.status == 0 && !s.ok
  }

  /** Budget counters of the running hour. */
  datatype Hour = Hour(startedAt: real, requests: nat, tokens: int)

  const HOUR := 3600.0
  const MINUTE := 60.0

  function Rolled(h: Hour, now: real): Hour
  {
    if HOUR <= now - h.startedAt then Hour(now, 0, 0) else h
  }

  /** Tokens are booked in the hour they arrive in; an exchange without tokens rolls nothing over. */
  function WithTokens(h: Hour, tokens: int, now: real): Hour
  {
    if tokens == 0 then h else Rolled(h, now).(tokens := Rolled(h, now).tokens + tokens)
  }

  /** A limit of 0 is no limit. */
  predicate WithinBudget(h: Hour, maxRequests: int, maxTokens: int)
  {
    && (maxRequests != 0 ==> h.requests < maxRequests)
    && (maxTokens != 0 ==> h.tokens < maxTokens)
  }

  /** The exponentially weighted latency; the first observation counts in full. */
  function Smoothed(alpha: real, before: real, latency: real): real
  {
    if before == 0.0 then latency else alpha * latency + (1.0 - alpha) * before
  }

  /** The estimate after a run of observations. */
  function SmoothedAll(alpha: real, latencies: seq<real>): real
  {
    if latencies == [] then 0.0
    else Smoothed(alpha, SmoothedAll(alpha, latencies[..|latencies| - 1]), latencies[|latencies| - 1])
  }

  function Product(x: real, y: real): real
  {
    x * y
  }

  function Power(x: real, n: nat): real
  {
    if n == 0 then 1.0 else x * Power(x, n - 1)
  }

  /** The part of the observation at place i in an estimate of n observations: the first counts with all that
      is left of it, every other with alpha of what is left. */
  function Part(alpha: real, i: nat, n: nat): real
    requires i < n
  {
    (if i == 0 then 1.0 else alpha) * Power(1.0 - alpha, n - 1 - i)
  }

  /** The parts of the first observations of n. */
  function PartSum(alpha: real, latencies: seq<real>, n: nat): real
    requires |latencies| <= n
  {
    if latencies == [] then 0.0
    else PartSum(alpha, latencies[..|latencies| - 1], n) + Product(Part(alpha, |latencies| - 1, n), latencies[|latencies| - 1])
  }

  lemma PartShrinks(alpha: real, i: nat, n: nat)
    requires i < n
    ensures Part(alpha, i, n + 1) == Product(1.0 - alpha, Part(alpha, i, n))
  {
    var rest := 1.0 - alpha;
    assert Power(rest, n - i) == rest * Power(rest, n - 1 - i);
    if i != 0 {
      Swapped(alpha, rest, Power(rest, n - 1 - i));
    }
  }

  lemma Swapped(x: real, y: real, z: real)
    ensures x * (y * z) == y * (x * z)
  {
  }

  /** One more observation shrinks the part of every earlier one. */
  lemma {:induction false} PartsShrink(alpha: real, latencies: seq<real>, n: nat)
    requires |latencies| <= n
    ensures PartSum(alpha, latencies, n + 1) == Product(1.0 - alpha, PartSum(alpha, latencies, n))
  {
    if latencies != [] {
      var front, i := latencies[..|latencies| - 1], |latencies| - 1;
      PartsShrink(alpha, front, n);
      PartShrinks(alpha, i, n);
      Shrunk(1.0 - alpha, Part(alpha, i, n), latencies[i], PartSum(alpha, front, n));
    }
  }

  lemma Shrunk(rest: real, part: real, latency: real, sum: real)
    ensures Product(rest, sum) + Product(Product(rest, part), latency) == Product(rest, sum + Product(part, latency))
  {
  }

  /** The smoothed latency in closed form: of n positive observations the one at place i counts
      alpha * (1 - alpha)^(n - 1 - i), the first one (1 - alpha)^(n - 1). */
  lemma {:induction false} SmoothedIsWeighted(alpha: real, latencies: seq<real>)
    requires 0.0 <= alpha <= 1.0 && forall i :: 0 <= i < |latencies| ==> 0.0 < latencies[i]
    ensures SmoothedAll(alpha, latencies) == PartSum(alpha, latencies, |latencies|)
  {
    if latencies != [] {
      var front, last := latencies[..|latencies| - 1], latencies[|latencies| - 1];
      SmoothedIsWeighted(alpha, front);
      PartsShrink(alpha, front, |front|);
      assert Power(1.0 - alpha, 0) == 1.0;
      if front != [] {
        var low := Least(front);
        var high := Greatest(front);
        SmoothedStaysBetween(alpha, front, low, high);
      }
    }
  }

  lemma {:induction false} Least(xs: seq<real>) returns (low: real)
    requires xs != [] && forall i :: 0 <= i < |xs| ==> 0.0 < xs[i]
    ensures 0.0 < low && forall i :: 0 <= i < |xs| ==> low <= xs[i]
  {
    low := xs[|xs| - 1];
    if 1 < |xs| {
      var other := Least(xs[..|xs| - 1]);
      low := if other < low then other else low;
    }
  }

  lemma {:induction false} Greatest(xs: seq<real>) returns (high: real)
    requires xs != []
    ensures forall i :: 0 <= i < |xs| ==> xs[i] <= high
  {
    high := xs[|xs| - 1];
    if 1 < |xs| {
      var other := Greatest(xs[..|xs| - 1]);
      high := if other < high then high else other;
    }
  }

  /** Over every run of observations the estimate stays in their range. */
  lemma {:induction false} SmoothedStaysBetween(alpha: real, latencies: seq<real>, low: real, high: real)
    requires 0.0 <= alpha <= 1.0 && latencies != []
    requires forall i :: 0 <= i < |latencies| ==> low <= latencies[i] <= high
    ensures low <= SmoothedAll(alpha, latencies) <= high
  {
    var front, last := latencies[..|latencies| - 1], latencies[|latencies| - 1];
    if front != [] {
      SmoothedStaysBetween(alpha, front, low, high);
    }
    SmoothedBetween(alpha, SmoothedAll(alpha, front), last, low, high);
  }

  lemma SmoothedBetween(alpha: real, before: real, latency: real, low: real, high: real)
    requires 0.0 <= alpha <= 1.0
    requires before == 0.0 || low <= before <= high
    requires low <= latency <= high
    ensures low <= Smoothed(alpha, before, latency) <= high
  {
    if before != 0.0 {
      Mix(alpha, latency, before, low);
      Mix(alpha, -latency, -before, -high);
      assert alpha * -latency + (1.0 - alpha) * -before == -(alpha * latency + (1.0 - alpha) * before);
    }
  }

  lemma Mix(alpha: real, x: real, y: real, low: real)
    requires 0.0 <= alpha <= 1.0 && low <= x && low <= y
    ensures low <= alpha * x + (1.0 - alpha) * y
  {
    assert 0.0 <= alpha * (x - low);
    assert 0.0 <= (1.0 - alpha) * (y - low);
  }

  /** The deque of a window of `span` seconds against the history at `clock`. */
  ghost predicate InStep<T>(events: seq<Stamped<T>>, h: seq<Stamped<T>>, span: real, clock: real)
  {
    && Chronological(h) && (h != [] ==> h[|h| - 1].at <= clock)
    && Tracks(events, h, clock - span)
  }

  lemma Waiting<T>(events: seq<Stamped<T>>, h: seq<Stamped<T>>, span: real, clock: real, now: real)
    requires InStep(events, h, span, clock) && clock <= now
    ensures InStep(events, h, span, now)
  {
  }

  lemma Trimming<T>(events: seq<Stamped<T>>, h: seq<Stamped<T>>, span: real, clock: real, now: real)
    requires InStep(events, h, span, clock) && clock <= now
    ensures InStep(DropOld(events, now - span), h, span, now)
    ensures DropOld(events, now - span) == Since(h, now - span)
  {
    TrimTracks(events, h, clock - span, now - span);
  }

  lemma Noting<T>(events: seq<Stamped<T>>, h: seq<Stamped<T>>, span: real, clock: real, now: real, item: T)
    requires InStep(events, h, span, clock) && clock <= now
    ensures var e := Stamped(now, item);
      && InStep(DropOld(events + [e], now - span), h + [e], span, now)
      && DropOld(events + [e], now - span) == Since(h + [e], now - span)
  {
    Snoc(h, Stamped(now, item));
    AppendTracks(events, h, Stamped(now, item), clock - span);
    TrimTracks(events + [Stamped(now, item)], h + [Stamped(now, item)], clock - span, now - span);
  }

  /** Two windows at once: one takes an item, the other only gets older. */
  lemma NoteOne<T, U>(events: seq<Stamped<T>>, h: seq<Stamped<T>>, span: real, others: seq<Stamped<U>>, k: seq<Stamped<U>>, otherSpan: real,
      clock: real, now: real, item: T)
    requires InStep(events, h, span, clock) && InStep(others, k, otherSpan, clock) && clock <= now
    ensures InStep(DropOld(events + [Stamped(now, item)], now - span), h + [Stamped(now, item)], span, now)
    ensures InStep(others, k, otherSpan, now)
    ensures DropOld(events + [Stamped(now, item)], now - span) == Since(h + [Stamped(now, item)], now - span)
  {
    Noting(events, h, span, clock, now, item);
    Waiting(others, k, otherSpan, clock, now);
  }

  lemma Snoc<T>(h: seq<Stamped<T>>, e: Stamped<T>)
    requires Chronological(h) && (h != [] ==> h[|h| - 1].at <= e.at)
    ensures Chronological(h + [e])
  {
  }

  class NodeRuntime {
    const breaker: CircuitBreaker.CircuitBreaker
    const window: real
    const alpha: real
    var maxConcurrency: int
    var active: nat
    var latency: real
    var samples: seq<Stamped<Sample>>
    var hour: Hour
    var maxRequests: int
    var maxTokens: int
    var lastMinute: seq<Stamped<()>>
    var total: nat

    /** Everything ever observed and every request ever noted. */
    ghost var observed: seq<Stamped<Sample>>
    ghost var noted: seq<Stamped<()>>
    ghost var clock: real

    /** The trimmed deques still hold what any later window needs. */
    ghost predicate Valid()
      reads this
    {
      && InStep(samples, observed, window, clock)
      && InStep(lastMinute, noted, MINUTE, clock)
      && total == |noted|
    }

    constructor (breaker: CircuitBreaker.CircuitBreaker, window: real, alpha: real, maxConcurrency: int, maxRequests: int, maxTokens: int, now: real)
      ensures Valid() && observed == [] && noted == [] && clock == now && active == 0
      ensures this.breaker == breaker && this.window == window && this.maxConcurrency == maxConcurrency
      ensures this.maxRequests == maxRequests && this.maxTokens == maxTokens && hour == Hour(now, 0, 0)
    {
      this.breaker, this.window, this.alpha := breaker, window, alpha;
      this.maxConcurrency, this.maxRequests, this.maxTokens := maxConcurrency, maxRequests, maxTokens;
      active, latency, samples, hour, lastMinute, total := 0, 0.0, [], Hour(now, 0, 0), [], 0;
      observed, noted, clock := [], [], now;
    }

    method Acquire() returns (taken: bool)
      modifies this`active
      ensures taken <==> old(active) < Max(1, maxConcurrency)
      ensures active == old(active) + if taken then 1 else 0
    {
      if active >= Max(1, maxConcurrency) {
        return false;
      }
      active := active + 1;
      taken := true;
    }

    method Release()
      modifies this`active
      ensures active == Max(0, old(active) - 1)
    {
      active := Max(0, active - 1);
    }

    /** One exchange: smoothed latency, the sample window, the breaker, the token budget. */
    method Observe(ok: bool, latencyMs: real, status: int, now: real, tokens: int)
      requires Valid() && clock <= now
      modifies this, breaker
      ensures Valid() && clock == now && active == old(active) && noted == old(noted)
      ensures observed == old(observed) + [Stamped(now, Sample(ok, status))]
      ensures samples == Since(observed, now - window)
      ensures breaker.State() == CircuitBreaker.Record(breaker.cfg, old(breaker.State()), ok, now)
      ensures latency == Smoothed(alpha, old(latency), latencyMs)
      ensures tokens == 0 ==> hour == old(hour)
      ensures tokens != 0 ==> hour == if now - old(hour).startedAt >= 3600.0
        then Hour(now, 0, tokens) else Hour(old(hour).startedAt, old(hour).requests, old(hour).tokens + tokens)
      ensures lastMinute == old(lastMinute)
      ensures maxConcurrency == old(maxConcurrency) && maxRequests == old(maxRequests) && maxTokens == old(maxTokens)
    {
      Smooth(latencyMs);
      AddSample(Sample(ok, status), now);
      breaker.RecordResult(ok, now);
      AddTokens(tokens, now);
    }

    method Smooth(latencyMs: real)
      modifies this`latency
      ensures latency == Smoothed(alpha, old(latency), latencyMs)
    {
      latency := Smoothed(alpha, latency, latencyMs);
    }

    method AddSample(sample: Sample, now: real)
      requires Valid() && clock <= now
      modifies this`samples, this`observed, this`clock
      ensures Valid() && clock == now
      ensures observed == old(observed) + [Stamped(now, sample)]
      ensures samples == Since(observed, now - window)
    {
      var kept := Windows.Trim(samples + [Stamped(now, sample)], now - window);
      NoteOne(samples, observed, window, lastMinute, noted, MINUTE, clock, now, sample);
      samples, observed, clock := kept, observed + [Stamped(now, sample)], now;
    }

    method AddTokens(tokens: int, now: real)
      modifies this`hour
      ensures hour == WithTokens(old(hour), tokens, now)
      ensures tokens == 0 ==> hour == old(hour)
      ensures tokens != 0 ==> hour == if now - old(hour).startedAt >= 3600.0
        then Hour(now, 0, tokens) else Hour(old(hour).startedAt, old(hour).requests, old(hour).tokens + tokens)
    {
      if tokens != 0 {
        hour := Rolled(hour, now);
        hour := hour.(tokens := hour.tokens + tokens);
      }
    }

    /** The failure share of everything observed within the window, whatever was trimmed before. */
    method ErrorRate(now: real) returns (rate: real)
      requires Valid() && clock <= now
      modifies this`samples, this`clock
      ensures Valid() && clock == now
      ensures var recent := Since(observed, now - window);
        && rate == ErrorShare(recent)
        && rate == if recent == [] then 0.0 else |FailedAt(recent)| as real / |recent| as real
    {
      FailuresAreAt(Since(observed, now - window));
      TrimSamples(now);
      var failed := 0;
      for i := 0 to |samples|
        invariant failed == Failures(samples[..i])
      {
        assert samples[..i + 1][..i] == samples[..i];
        failed := failed + if samples[i].item.ok then 0 else 1;
      }
      assert samples[..|samples|] == samples;
      rate := if samples == [] then 0.0 else failed as real / |samples| as real;
    }

    method TrimSamples(now: real)
      requires Valid() && clock <= now
      modifies this`samples, this`clock
      ensures Valid() && clock == now
      ensures samples == Since(observed, now - window)
    {
      Trimming(samples, observed, window, clock, now);
      Waiting(lastMinute, noted, MINUTE, clock, now);
      samples := Windows.Trim(samples, now - window);
      clock := now;
    }

    /** Some exchange within the window was refused for lack of authorisation. */
    method AuthError(now: real) returns (refused: bool)
      requires Valid() && clock <= now
      modifies this`samples, this`clock
      ensures Valid() && clock == now
      ensures refused <==> exists i ::
        0 <= i < |observed| && now - window <= observed[i].at && (observed[i].item.status == 401 || observed[i].item.status == 403)
    {
      TrimSamples(now);
      refused := false;
      for i := 0 to |samples|
        invariant refused <==> exists k :: 0 <= k < i && IsRefusal(samples[k].item)
      {
        refused := refused || IsRefusal(samples[i].item);
      }
      var k := SinceIsSuffix(observed, now - window);
      assert forall i :: 0 <= i < |samples| ==> samples[i] == observed[k + i];
      assert forall i :: k <= i < |observed| ==> observed[i] == samples[i - k];
    }

    /** The run of timeouts at the end of the samples that are still held. */
    method TimeoutStreak() returns (streak: nat)
      ensures streak <= |samples|
      ensures forall i :: |samples| - streak <= i < |samples| ==> samples[i].item.status == 0 && !samples[i].item.ok
      ensures streak < |samples| ==> samples[|samples| - 1 - streak].item.status != 0 || samples[|samples| - 1 - streak].item.ok
    {
      streak := 0;
      while streak < |samples| && IsTimeout(samples[|samples| - 1 - streak].item)
        invariant streak <= |samples|
        invariant forall i :: |samples| - streak <= i < |samples| ==> IsTimeout(samples[i].item)
      {
        streak := streak + 1;
      }
    }

    method NoteRequest(now: real)
      requires Valid() && clock <= now
      modifies this
      ensures Valid() && clock == now && active == old(active) && observed == old(observed) && samples == old(samples)
      ensures noted == old(noted) + [Stamped(now, ())] && latency == old(latency)
      ensures var over := now - old(hour).startedAt >= 3600.0;
        hour == if over then Hour(now, 1, 0) else Hour(old(hour).startedAt, old(hour).requests + 1, old(hour).tokens)
      ensures lastMinute == Since(noted, now - MINUTE)
      ensures maxConcurrency == old(maxConcurrency) && maxRequests == old(maxRequests) && maxTokens == old(maxTokens)
    {
      hour := Rolled(hour, now);
      hour := hour.(requests := hour.requests + 1);
      AddMark(now);
    }

    method AddMark(now: real)
      requires Valid() && clock <= now
      modifies this`lastMinute, this`noted, this`clock, this`total
      ensures Valid() && clock == now
      ensures noted == old(noted) + [Stamped(now, ())]
      ensures lastMinute == Since(noted, now - MINUTE)
    {
      var kept := Windows.Trim(lastMinute + [Stamped(now, ())], now - MINUTE);
      NoteOne(lastMinute, noted, MINUTE, samples, observed, window, clock, now, ());
      lastMinute, noted, clock, total := kept, noted + [Stamped(now, ())], now, total + 1;
    }

    method LimitsAllow(now: real) returns (allowed: bool)
      modifies this`hour
      ensures hour == Rolled(old(hour), now)
      ensures allowed == WithinBudget(hour, maxRequests, maxTokens)
      ensures var over := now - old(hour).startedAt >= 3600.0;
        allowed <==>
          && (maxRequests == 0 || (if over then 0 else old(hour).requests) < maxRequests)
          && (maxTokens == 0 || (if over then 0 else old(hour).tokens) < maxTokens)
    {
      hour := Rolled(hour, now);
      if maxRequests != 0 && hour.requests >= maxRequests {
        return false;
      }
      allowed := !(maxTokens != 0 && hour.tokens >= maxTokens);
    }
  }
}
