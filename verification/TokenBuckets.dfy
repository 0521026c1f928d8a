/** The token bucket behind the request rate limits, with floats modelled as reals. */
module TokenBuckets {

  /** `earn` gives the tokens that flow in during an interval of the given length. */
  datatype Bucket = Bucket(capacity: real, earn: real -> real, tokens: real, updatedAt: real)

  /** One full capacity per minute. */
  function PerMinute(capacity: real): real -> real
  {
    (elapsed: real) => elapsed * (capacity / 60.0)
  }

  function Refill(b: Bucket, now: real): Bucket
  {
    if 0.0 < now - b.updatedAt then
      var filled := b.tokens + b.earn(now - b.updatedAt);
      b.(tokens := if filled < b.capacity then filled else b.capacity, updatedAt := now)
    else b
  }

  function Consume(b: Bucket, amount: real, now: real): (Bucket, bool)
  {
    var full := Refill(b, now);
    if full.tokens < amount then (full, false) else (full.(tokens := full.tokens - amount), true)
  }

  /** Tokens per second used for the waiting time; a zero capacity counts as one a minute. */
  function RetryRate(b: Bucket): real
  {
    if b.capacity / 60.0 == 0.0 then 1.0 / 60.0 else b.capacity / 60.0
  }

  function RetryAfter(b: Bucket, now: real): (Bucket, int)
    requires 0.0 <= b.capacity
  {
    var full := Refill(b, now);
    if 1.0 <= full.tokens then (full, 0)
    else
      var seconds := ((1.0 - full.tokens) / RetryRate(b)).Floor + 1;
      (full, if 1 < seconds then seconds else 1)
  }

  class TokenBucket {
    var capacity: real
    var tokens: real
    var updatedAt: real

    function State(): Bucket
      reads this
    {
      Bucket(capacity, PerMinute(capacity), tokens, updatedAt)
    }

    /** A new bucket is full, and a valid start for every statement about runs below. */
    constructor (capacity: real, now: real)
      ensures State() == Bucket(capacity, PerMinute(capacity), capacity, now)
      ensures 0.0 <= capacity ==> Valid(State())
    {
      this.capacity, this.tokens, this.updatedAt := capacity, capacity, now;
      if 0.0 <= capacity {
        PerMinuteIsLinear(capacity);
      }
    }

    method RefillTo(now: real)
      modifies this`tokens, this`updatedAt
      ensures State() == Refill(old(State()), now)
    {
      var elapsed := now - updatedAt;
      if 0.0 < elapsed {
        var filled := tokens + elapsed * (capacity / 60.0);
        tokens := if filled < capacity then filled else capacity;
        updatedAt := now;
      }
    }

    method TryConsume(amount: real, now: real) returns (allowed: bool)
      modifies this`tokens, this`updatedAt
      ensures (State(), allowed) == Consume(old(State()), amount, now)
    {
      RefillTo(now);
      if tokens < amount {
        return false;
      }
      tokens := tokens - amount;
      allowed := true;
    }

    method SecondsUntilRetry(now: real) returns (seconds: int)
      requires 0.0 <= capacity
      modifies this`tokens, this`updatedAt
      ensures (State(), seconds) == RetryAfter(old(State()), now)
    {
      RefillTo(now);
      if 1.0 <= tokens {
        return 0;
      }
      var rate := if capacity / 60.0 == 0.0 then 1.0 / 60.0 else capacity / 60.0;
      seconds := ((1.0 - tokens) / rate).Floor + 1;
      if seconds < 1 {
        seconds := 1;
      }
    }
  }

  // ---------------------------------------------------------------------------
  // Whole runs
  // ---------------------------------------------------------------------------

  datatype Call = ConsumeCall(amount: real, now: real) | RetryCall(now: real)

  function Sum(x: real, y: real): real
  {
    x + y
  }

  /** Longer intervals earn proportionally more. */
  ghost predicate Linear(earn: real -> real)
  {
    && (forall x, y {:trigger earn(Sum(x, y))} :: earn(Sum(x, y)) == earn(x) + earn(y))
    && (forall x :: 0.0 <= x ==> 0.0 <= earn(x))
  }

  /** The gateway's buckets, one capacity per minute, earn linearly. */
  lemma PerMinuteIsLinear(capacity: real)
    requires 0.0 <= capacity
    ensures Linear(PerMinute(capacity))
  {
    forall x, y ensures PerMinute(capacity)(Sum(x, y)) == PerMinute(capacity)(x) + PerMinute(capacity)(y) {
      Distribute(x, y, capacity / 60.0);
    }
    forall x | 0.0 <= x ensures 0.0 <= PerMinute(capacity)(x) {
      NonNegative(x, capacity / 60.0);
    }
  }

  lemma Distribute(x: real, y: real, rate: real)
    ensures (x + y) * rate == x * rate + y * rate
  {
  }

  lemma NonNegative(x: real, y: real)
    requires 0.0 <= x && 0.0 <= y
    ensures 0.0 <= x * y
  {
  }

  ghost predicate Valid(b: Bucket)
  {
    0.0 <= b.tokens <= b.capacity && Linear(b.earn)
  }

  function Apply(b: Bucket, call: Call): Bucket
    requires 0.0 <= b.capacity
  {
    match call
    case ConsumeCall(amount, now) => Consume(b, amount, now).0
    case RetryCall(now) => RetryAfter(b, now).0
  }

  /** The tokens one call grants. */
  function Granted(b: Bucket, call: Call): real
  {
    if call.ConsumeCall? && Consume(b, call.amount, call.now).1 then call.amount else 0.0
  }

  function After(b: Bucket, calls: seq<Call>): (r: Bucket)
    requires 0.0 <= b.capacity
    ensures r.capacity == b.capacity && r.earn == b.earn
  {
    if calls == [] then b else Apply(After(b, calls[..|calls| - 1]), calls[|calls| - 1])
  }

  /** The tokens a run of calls grants in all. */
  function Spent(b: Bucket, calls: seq<Call>): real
    requires 0.0 <= b.capacity
  {
    if calls == [] then 0.0
    else Spent(b, calls[..|calls| - 1]) + Granted(After(b, calls[..|calls| - 1]), calls[|calls| - 1])
  }

  /** Amounts are not negative and the clock never goes back, from the bucket's last update on. */
  ghost predicate Timely(b: Bucket, calls: seq<Call>)
  {
    && (forall i :: 0 <= i < |calls| ==> b.updatedAt <= calls[i].now)
    && (forall i, j :: 0 <= i < j < |calls| ==> calls[i].now <= calls[j].now)
    && (forall i :: 0 <= i < |calls| && calls[i].ConsumeCall? ==> 0.0 <= calls[i].amount)
  }

  /** A refill leaves the bucket valid and adds at most what the elapsed time earns. */
  lemma RefillStep(b: Bucket, now: real)
    requires Valid(b) && b.updatedAt <= now
    ensures Valid(Refill(b, now)) && Refill(b, now).updatedAt == now
    ensures Refill(b, now).tokens <= b.tokens + b.earn(now - b.updatedAt)
  {
  }

  /** One call spends what it grants and no more. */
  lemma CallStep(b: Bucket, call: Call)
    requires Valid(b) && b.updatedAt <= call.now && (call.ConsumeCall? ==> 0.0 <= call.amount)
    ensures Valid(Apply(b, call)) && Apply(b, call).updatedAt == call.now
    ensures Apply(b, call).tokens + Granted(b, call) <= b.capacity
    ensures Apply(b, call).tokens + Granted(b, call) <= b.tokens + b.earn(call.now - b.updatedAt)
  {
    RefillStep(b, call.now);
    assert Apply(b, call).tokens + Granted(b, call) == Refill(b, call.now).tokens;
  }

  /** What flows in between the first and the last call. */
  ghost function Inflow(earn: real -> real, calls: seq<Call>): real
  {
    if |calls| <= 1 then 0.0
    else
      Inflow(earn, calls[..|calls| - 1]) + earn(calls[|calls| - 1].now - calls[|calls| - 2].now)
  }

  /** What a run grants and what it leaves is bounded by one full bucket and the inflow. */
  lemma {:induction false} Burst(b: Bucket, calls: seq<Call>)
    requires Valid(b) && calls != [] && Timely(b, calls)
    ensures Valid(After(b, calls)) && After(b, calls).updatedAt == calls[|calls| - 1].now
    ensures Spent(b, calls) + After(b, calls).tokens <= b.capacity + Inflow(b.earn, calls)
  {
    var front, last := calls[..|calls| - 1], calls[|calls| - 1];
    if front == [] {
      CallStep(b, last);
      assert Spent(b, front) == 0.0;
    } else {
      Burst(b, front);
      CallStep(After(b, front), last);
    }
  }

  /** The inflow depends on the time spanned only. */
  lemma {:induction false} InflowIsSpan(earn: real -> real, calls: seq<Call>)
    requires calls != [] && Linear(earn)
    ensures Inflow(earn, calls) == earn(calls[|calls| - 1].now - calls[0].now)
  {
    if |calls| == 1 {
      EarnsInSum(earn, 0.0, 0.0);
    } else {
      var front := calls[..|calls| - 1];
      InflowIsSpan(earn, front);
      EarnsInSum(earn, front[|front| - 1].now - calls[0].now, calls[|calls| - 1].now - front[|front| - 1].now);
    }
  }

  lemma EarnsInSum(earn: real -> real, x: real, y: real)
    requires Linear(earn)
    ensures earn(x + y) == earn(x) + earn(y)
  {
    assert earn(Sum(x, y)) == earn(x) + earn(y);
  }

  lemma EarnsMore(earn: real -> real, x: real, y: real)
    requires Linear(earn) && x <= y
    ensures earn(x) <= earn(y)
  {
    EarnsInSum(earn, x, y - x);
    assert x + (y - x) == y;
  }

  /** Tokens stay between 0 and the capacity, in every run. */
  lemma {:induction false} TokensInRange(b: Bucket, calls: seq<Call>)
    requires Valid(b) && Timely(b, calls)
    ensures Valid(After(b, calls))
  {
    if calls != [] {
      Burst(b, calls);
    }
  }

  /** The rate bound: whatever happened before, the calls of any interval [s, t] of a run are
      granted at most one full bucket plus the refill of the interval. */
  lemma {:induction false} RateBound(b: Bucket, before: seq<Call>, during: seq<Call>, s: real, t: real)
    requires Valid(b) && Timely(b, before + during) && s <= t
    requires forall i :: 0 <= i < |during| ==> s <= during[i].now <= t
    ensures Spent(After(b, before), during) <= b.capacity + b.earn(t - s)
  {
    if during != [] {
      InflowIsSpan(b.earn, during);
      EarnsMore(b.earn, during[|during| - 1].now - during[0].now, t - s);
    }
    GrantBound(b, before, during, b.earn(t - s));
  }

  lemma {:induction false} GrantBound(b: Bucket, before: seq<Call>, during: seq<Call>, limit: real)
    requires Valid(b) && Timely(b, before + during)
    requires 0.0 <= limit && Inflow(b.earn, during) <= limit
    ensures Spent(After(b, before), during) <= b.capacity + limit
  {
    TimelyTail(b, before, during);
    if during != [] {
      Burst(After(b, before), during);
    }
  }

  /** A later part of a run starts from a valid bucket and is timely for it. */
  lemma TimelyTail(b: Bucket, before: seq<Call>, during: seq<Call>)
    requires Valid(b) && Timely(b, before + during)
    ensures Valid(After(b, before)) && Timely(After(b, before), during)
  {
    var all := before + during;
    assert forall i :: 0 <= i < |during| ==> all[|before| + i] == during[i];
    assert forall i :: 0 <= i < |before| ==> all[i] == before[i];
    if before != [] {
      Burst(b, before);
      assert After(b, before).updatedAt == all[|before| - 1].now;
    }
  }

  /** The number of calls that were granted something. */
  function Grants(b: Bucket, calls: seq<Call>): nat
    requires 0.0 <= b.capacity
  {
    if calls == [] then 0
    else
      Grants(b, calls[..|calls| - 1])
      + (if Granted(After(b, calls[..|calls| - 1]), calls[|calls| - 1]) == 0.0 then 0 else 1)
  }

  /** With `consume(1)` calls only, the tokens granted are the number of grants. */
  lemma {:induction false} SpentCountsGrants(b: Bucket, calls: seq<Call>)
    requires 0.0 <= b.capacity
    requires forall i :: 0 <= i < |calls| && calls[i].ConsumeCall? ==> calls[i].amount == 1.0
    ensures Spent(b, calls) == Grants(b, calls) as real
  {
    if calls != [] {
      SpentCountsGrants(b, calls[..|calls| - 1]);
    }
  }

  /** The bound in the source's terms: successes of `consume(1)` in [s, t], wherever in a run. */
  lemma {:induction false} SuccessBound(b: Bucket, before: seq<Call>, during: seq<Call>, s: real, t: real)
    requires Valid(b) && b.earn == PerMinute(b.capacity) && Timely(b, before + during) && s <= t
    requires forall i :: 0 <= i < |during| ==> s <= during[i].now <= t
    requires forall i :: 0 <= i < |during| && during[i].ConsumeCall? ==> during[i].amount == 1.0
    ensures After(b, before).capacity == b.capacity && 0.0 <= b.capacity
    ensures Grants(After(b, before), during) as real <= b.capacity + PerMinute(b.capacity)(t - s)
  {
    SameCapacity(b, before);
    RateBound(b, before, during, s, t);
    SpentCountsGrants(After(b, before), during);
  }

  /** For a bucket of the gateway, from its creation on: no hypothesis on the bucket is left. */
  lemma {:induction false} NewBucketSuccesses(capacity: real, created: real, before: seq<Call>, during: seq<Call>, s: real, t: real)
    requires 0.0 <= capacity && s <= t
    requires Timely(Bucket(capacity, PerMinute(capacity), capacity, created), before + during)
    requires forall i :: 0 <= i < |during| ==> s <= during[i].now <= t
    requires forall i :: 0 <= i < |during| && during[i].ConsumeCall? ==> during[i].amount == 1.0
    ensures var b := Bucket(capacity, PerMinute(capacity), capacity, created);
      && After(b, before).capacity == capacity
      && Grants(After(b, before), during) as real <= capacity + PerMinute(capacity)(t - s)
  {
    PerMinuteIsLinear(capacity);
    SuccessBound(Bucket(capacity, PerMinute(capacity), capacity, created), before, during, s, t);
  }

  /** What a minute and any other time earn: one capacity per 60 seconds. */
  lemma Earned(capacity: real, seconds: real)
    ensures PerMinute(capacity)(seconds) == seconds * (capacity / 60.0)
    ensures PerMinute(capacity)(60.0) == capacity
  {
  }

  /** A bucket that holds nothing and never will: the waiting time is that of one token a minute. */
  lemma EmptyBucketWaits(now: real)
    ensures RetryAfter(Bucket(0.0, PerMinute(0.0), 0.0, now), now) == (Bucket(0.0, PerMinute(0.0), 0.0, now), 61)
  {
    assert (1.0 - 0.0) / (1.0 / 60.0) == 60.0;
  }

  lemma {:induction false} SameCapacity(b: Bucket, calls: seq<Call>)
    requires 0.0 <= b.capacity
    ensures After(b, calls).capacity == b.capacity && After(b, calls).earn == b.earn
  {
    if calls != [] {
      SameCapacity(b, calls[..|calls| - 1]);
    }
  }

  // ---------------------------------------------------------------------------
  // Waiting times
  // ---------------------------------------------------------------------------

  lemma ScaleOrder(x: real, y: real, rate: real)
    ensures 0.0 <= rate && x <= y ==> x * rate <= y * rate
    ensures 0.0 < rate && x * rate <= y * rate ==> x <= y
  {
  }

  /** The truncated waiting time for what is missing to one token: enough, and not by a
      whole second too much. */
  lemma TruncatedWait(tokens: real, rate: real, wait: real)
    requires tokens < 1.0 && 0.0 < rate && wait == (1.0 - tokens) / rate
    ensures 0.0 < wait
    ensures 1.0 <= tokens + (wait.Floor + 1) as real * rate
    ensures tokens + wait.Floor as real * rate <= 1.0
  {
    WaitTimesRate(tokens, rate, wait);
    var floor, ceiling := wait.Floor as real, (wait.Floor + 1) as real;
    assert floor <= wait <= ceiling;
    ScaleOrder(wait, ceiling, rate);
    ScaleOrder(floor, wait, rate);
  }

  lemma WaitTimesRate(tokens: real, rate: real, wait: real)
    requires tokens < 1.0 && 0.0 < rate && wait == (1.0 - tokens) / rate
    ensures wait * rate == 1.0 - tokens && 0.0 < wait
  {
  }

  /** `retry_after` is sufficient exactly when the capacity is at least 1: if nothing is
      consumed for that many seconds, the next `consume(1)` succeeds. It is at most one
      second longer than needed. */
  lemma {:induction false} RetryAfterSuffices(b: Bucket, now: real)
    requires Valid(b) && b.earn == PerMinute(b.capacity) && b.updatedAt <= now
    ensures var (idle, seconds) := RetryAfter(b, now);
      && (Consume(idle, 1.0, now + seconds as real).1 <==> 1.0 <= b.capacity)
      && (0 < seconds && 0.0 < b.capacity ==> idle.tokens + idle.earn((seconds - 1) as real) <= 1.0)
  {
    var (idle, seconds) := RetryAfter(b, now);
    RefillStep(b, now);
    if 0 < seconds {
      var gap := seconds as real;
      SecondsEarnEnough(idle.tokens, b.capacity, RetryRate(b), seconds);
      WaitedEnough(idle, now, gap);
      assert Consume(idle, 1.0, now + gap).1 <==> 1.0 <= b.capacity;
    }
  }

  lemma SecondsEarnEnough(tokens: real, capacity: real, rate: real, seconds: int)
    requires tokens < 1.0 && 0.0 < rate && (0.0 < capacity ==> rate == capacity / 60.0)
    requires seconds == (if 1 < ((1.0 - tokens) / rate).Floor + 1 then ((1.0 - tokens) / rate).Floor + 1 else 1)
    ensures 0.0 < capacity ==> 1.0 <= tokens + PerMinute(capacity)(seconds as real)
    ensures 0.0 < capacity ==> tokens + PerMinute(capacity)((seconds - 1) as real) <= 1.0
  {
    TruncatedWait(tokens, rate, (1.0 - tokens) / rate);
  }

  /** A wait of `gap` seconds is enough when what it earns makes up one token and fits. */
  lemma WaitedEnough(idle: Bucket, now: real, gap: real)
    requires Valid(idle) && idle.updatedAt == now && 0.0 < gap
    ensures Consume(idle, 1.0, now + gap).1
      <==> 1.0 <= idle.capacity && 1.0 <= idle.tokens + idle.earn(gap)
  {
    assert now + gap - now == gap;
  }

  /** The seconds `check_user` tells a denied client to wait: the reset time is taken at wall
      time `start`, the difference to it again at the later wall time `start + delay`. */
  function RetryHint(seconds: int, start: real, delay: real): int
  {
    var resetAt := start + (if 1 < seconds then seconds else 1) as real;
    var left := (resetAt - (start + delay)).Floor;
    if 1 < left then left else 1
  }

  /** The seconds until a bucket holds a token. */
  function Wait(b: Bucket): real
    requires 0.0 < b.capacity
  {
    (1.0 - b.tokens) / (b.capacity / 60.0)
  }

  /** That hint is truncated a second time. A client that waits for it, after any delay between the
      two clock readings, succeeds if and only if delay and hint together reach the waiting time. */
  lemma {:induction false} RetryHintSuffices(b: Bucket, now: real, start: real, delay: real)
    requires Valid(b) && b.earn == PerMinute(b.capacity) && b.updatedAt <= now && 0.0 <= delay
    ensures var (idle, seconds) := RetryAfter(b, now);
      var hint := RetryHint(seconds, start, delay);
      Consume(idle, 1.0, now + delay + hint as real).1 <==> 1.0 <= b.capacity && Wait(idle) <= delay + hint as real
  {
    var (idle, seconds) := RetryAfter(b, now);
    var gap := delay + RetryHint(seconds, start, delay) as real;
    RefillStep(b, now);
    WaitedEnough(idle, now, gap);
    assert now + gap == now + delay + RetryHint(seconds, start, delay) as real;
    if 1.0 <= b.capacity {
      EnoughWait(idle.tokens, b.capacity, gap);
    }
  }

  lemma EnoughWait(tokens: real, capacity: real, gap: real)
    requires 1.0 <= capacity
    ensures 1.0 <= tokens + PerMinute(capacity)(gap) <==> (1.0 - tokens) / (capacity / 60.0) <= gap
  {
    var rate := capacity / 60.0;
    var wait := (1.0 - tokens) / rate;
    assert wait * rate == 1.0 - tokens;
    ScaleOrder(wait, gap, rate);
    ScaleOrder(gap, wait, rate);
    assert PerMinute(capacity)(gap) == gap * rate;
  }

  /** So it can be too short: for a wait of two seconds or more and any delay of up to a second it is
      one second less than `retry_after`, and suffices exactly if the delay made up for the fraction. */
  lemma {:induction false} RetryHintFallsShort(b: Bucket, now: real, start: real, delay: real)
    requires Valid(b) && b.earn == PerMinute(b.capacity) && b.updatedAt <= now && 1.0 <= b.capacity
    requires 0.0 < delay <= 1.0 && 2 <= RetryAfter(b, now).1
    ensures var (idle, seconds) := RetryAfter(b, now);
      var hint := RetryHint(seconds, start, delay);
      && hint == seconds - 1
      && (Consume(idle, 1.0, now + delay + hint as real).1 <==> Wait(idle) - Wait(idle).Floor as real <= delay)
  {
    var (idle, seconds) := RetryAfter(b, now);
    RetryHintSuffices(b, now, start, delay);
    HintSeconds(seconds, start, delay);
    RefillStep(b, now);
    assert seconds == Wait(idle).Floor + 1;
  }

  lemma HintSeconds(seconds: int, start: real, delay: real)
    requires 0.0 < delay <= 1.0 && 2 <= seconds
    ensures RetryHint(seconds, start, delay) == seconds - 1
  {
    assert start + seconds as real - (start + delay) == seconds as real - delay;
    assert (seconds as real - delay).Floor == seconds - 1;
  }

  /** Tokens and refill of the concrete case below. */
  lemma SlowBucketRefill(b: Bucket)
    requires b == Bucket(20.0, PerMinute(20.0), 0.1, 0.0)
    ensures Refill(b, 2.1).tokens == 0.8 && Refill(b, 0.0) == b
  {
    assert b.earn(2.1) == 0.7;
  }

  /** A concrete case: limit 20 per minute, 0.1 tokens left, a tenth of a second between the
      two clock readings. The client is told 2 seconds and is denied again. */
  lemma {:induction false} RetryHintFallsShortExample()
    ensures var b := Bucket(20.0, PerMinute(20.0), 0.1, 0.0);
      && RetryAfter(b, 0.0).1 == 3 && RetryHint(3, 0.0, 0.1) == 2
      && !Consume(b, 1.0, 0.1 + 2.0).1
  {
    var b := Bucket(20.0, PerMinute(20.0), 0.1, 0.0);
    assert RetryAfter(b, 0.0).1 == 3 by {
      assert (1.0 - 0.1) / (20.0 / 60.0) == 2.7;
      assert (2.7 as real).Floor == 2;
    }
    HintSeconds(3, 0.0, 0.1);
    SlowBucketRefill(b);
    assert 0.1 + 2.0 == 2.1;
  }
}
