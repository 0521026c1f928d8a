/** The windowed and concurrent limits: requests per minute to external sources, token
    quotas over a sliding window, and simultaneous requests per subject. */
module RateLimits {
  import opened Common
  import opened Windows

  // ---------------------------------------------------------------------------
  // MinuteRateLimiter
  // ---------------------------------------------------------------------------

  type Admissions = seq<Stamped<()>>

  function Allow(limit: int, events: Admissions, now: real): (Admissions, bool)
  {
    if limit <= 0 then (events, false)
    else
      var kept := DropOld(events, now - 60.0);
      if limit <= |kept| then (kept, false) else (kept + [Stamped(now, ())], true)
  }

  function Remaining(limit: int, events: Admissions, now: real): (Admissions, int)
  {
    var kept := DropOld(events, now - 60.0);
    (kept, Max(0, limit - |kept|))
  }

  class MinuteRateLimiter {
    const limit: int
    var events: Admissions

    constructor (limit: int)
      ensures this.limit == limit && events == []
    {
      this.limit := limit;
      events := [];
    }

    method TryAllow(now: real) returns (allowed: bool)
      modifies this
      ensures (events, allowed) == Allow(limit, old(events), now)
    {
      if limit <= 0 {
        return false;
      }
      events := Trim(events, now - 60.0);
      if limit <= |events| {
        return false;
      }
      events := events + [Stamped(now, ())];
      allowed := true;
    }

    method CountRemaining(now: real) returns (left: int)
      modifies this
      ensures (events, left) == Remaining(limit, old(events), now)
    {
      events := Trim(events, now - 60.0);
      left := Max(0, limit - |events|);
    }
  }

  /** A call of a run: `asks` tells `allow` from `remaining`. */
  datatype Call = Call(asks: bool, now: real)

  function After(limit: int, calls: seq<Call>): Admissions
  {
    if calls == [] then []
    else
      var before, last := After(limit, calls[..|calls| - 1]), calls[|calls| - 1];
      if last.asks then Allow(limit, before, last.now).0 else Remaining(limit, before, last.now).0
  }

  predicate Granted(limit: int, calls: seq<Call>, i: nat)
    requires i < |calls|
  {
    calls[i].asks && Allow(limit, After(limit, calls[..i]), calls[i].now).1
  }

  /** Every admission of the run. */
  function Admitted(limit: int, calls: seq<Call>): Admissions
  {
    if calls == [] then []
    else if Granted(limit, calls, |calls| - 1) then
      Admitted(limit, calls[..|calls| - 1]) + [Stamped(calls[|calls| - 1].now, ())]
    else Admitted(limit, calls[..|calls| - 1])
  }

  ghost predicate Timely(calls: seq<Call>)
  {
    forall i, j :: 0 <= i < j < |calls| ==> calls[i].now <= calls[j].now
  }

  lemma {:induction false} AdmittedTimes(limit: int, calls: seq<Call>)
    requires Timely(calls)
    ensures Chronological(Admitted(limit, calls))
    ensures forall i :: 0 <= i < |Admitted(limit, calls)| ==> calls != [] && Admitted(limit, calls)[i].at <= calls[|calls| - 1].now
  {
    if calls != [] {
      AdmittedTimes(limit, calls[..|calls| - 1]);
    }
  }

  lemma {:induction false} WindowIsHistory(limit: int, calls: seq<Call>, now: real)
    requires Timely(calls) && (calls != [] ==> calls[|calls| - 1].now <= now)
    ensures Tracks(After(limit, calls), Admitted(limit, calls), now - 60.0)
  {
    if calls != [] {
      var front, last := calls[..|calls| - 1], calls[|calls| - 1];
      WindowIsHistory(limit, front, last.now);
      AdmittedTimes(limit, calls);
      StepTracks(limit, After(limit, front), Admitted(limit, front), last);
    }
  }

  lemma StepTracks(limit: int, events: Admissions, h: Admissions, call: Call)
    requires Tracks(events, h, call.now - 60.0)
    requires call.asks && Allow(limit, events, call.now).1 ==> Chronological(h + [Stamped(call.now, ())])
    ensures call.asks ==> Tracks(Allow(limit, events, call.now).0,
      if Allow(limit, events, call.now).1 then h + [Stamped(call.now, ())] else h, call.now - 60.0)
    ensures !call.asks ==> Tracks(Remaining(limit, events, call.now).0, h, call.now - 60.0)
  {
    var cutoff := call.now - 60.0;
    TrimTracks(events, h, cutoff, cutoff);
    if call.asks && Allow(limit, events, call.now).1 {
      AppendTracks(DropOld(events, cutoff), h, Stamped(call.now, ()), cutoff);
    }
  }

  /** A request is admitted exactly when fewer than `limit` admissions of the whole run lie
      in the last 60 seconds, and exactly when `remaining` is positive. */
  lemma AllowByHistory(limit: int, calls: seq<Call>, now: real)
    requires Timely(calls) && (calls != [] ==> calls[|calls| - 1].now <= now)
    ensures Allow(limit, After(limit, calls), now).1 <==> |Since(Admitted(limit, calls), now - 60.0)| < limit
    ensures Allow(limit, After(limit, calls), now).1 <==> 0 < Remaining(limit, After(limit, calls), now).1
  {
    WindowIsHistory(limit, calls, now);
  }

  /** The i-th and the (i + limit)-th admission are more than 60 seconds apart. */
  lemma {:induction false} AdmissionsAreSpaced(limit: nat, calls: seq<Call>, i: nat)
    requires Timely(calls) && i + limit < |Admitted(limit, calls)|
    ensures 60.0 < Admitted(limit, calls)[i + limit].at - Admitted(limit, calls)[i].at
  {
    var front, last := calls[..|calls| - 1], calls[|calls| - 1];
    var earlier := Admitted(limit, front);
    if i + limit < |earlier| {
      AdmissionsAreSpaced(limit, front, i);
    } else {
      assert calls[..|calls| - 1] == front;
      AllowByHistory(limit, front, last.now);
      AdmittedTimes(limit, front);
      var k := SinceIsSuffix(earlier, last.now - 60.0);
      assert i < k;
    }
  }

  /** Hence no closed 60-second interval anywhere in a run holds more than `limit` admissions. */
  lemma IntervalLimit(limit: nat, calls: seq<Call>, i: nat, j: nat)
    requires Timely(calls) && i <= j < |Admitted(limit, calls)|
    requires Admitted(limit, calls)[j].at - Admitted(limit, calls)[i].at <= 60.0
    ensures j - i + 1 <= limit
  {
    if limit <= j - i {
      AdmissionsAreSpaced(limit, calls, i);
      AdmittedTimes(limit, calls);
    }
  }

  /** The last decision of a run depends on the admissions before it only. */
  lemma LastDecision(limit: int, calls: seq<Call>)
    requires calls != [] && Timely(calls)
    ensures var front, last := calls[..|calls| - 1], calls[|calls| - 1];
      Granted(limit, calls, |calls| - 1) <==> last.asks && |Since(Admitted(limit, front), last.now - 60.0)| < limit
  {
    AllowByHistory(limit, calls[..|calls| - 1], calls[|calls| - 1].now);
  }

  /** A denied call, or a call of `remaining`, leaves no trace: without it every later call
      gets the same answer. */
  lemma {:induction false} DeniedLeavesNoTrace(limit: int, before: seq<Call>, denied: Call, later: seq<Call>)
    requires Timely(before + [denied] + later)
    requires !Granted(limit, before + [denied], |before|)
    ensures Admitted(limit, before + [denied] + later) == Admitted(limit, before + later)
    ensures later != [] ==>
      (Granted(limit, before + [denied] + later, |before| + |later|) <==> Granted(limit, before + later, |before| + |later| - 1))
  {
    var with, without := before + [denied] + later, before + later;
    if later == [] {
      assert with == before + [denied] && without == before;
      assert with[..|before|] == before;
    } else {
      var earlier := later[..|later| - 1];
      TimelyWithout(before, denied, later);
      TimelyFront(with);
      assert with[..|with| - 1] == before + [denied] + earlier;
      assert without[..|without| - 1] == before + earlier;
      DeniedLeavesNoTrace(limit, before, denied, earlier);
      SameDecision(limit, with, without);
    }
  }

  /** Runs with the same admissions so far decide the same last call alike. */
  lemma SameDecision(limit: int, a: seq<Call>, b: seq<Call>)
    requires a != [] && b != [] && Timely(a) && Timely(b)
    requires a[|a| - 1] == b[|b| - 1] && Admitted(limit, a[..|a| - 1]) == Admitted(limit, b[..|b| - 1])
    ensures Granted(limit, a, |a| - 1) <==> Granted(limit, b, |b| - 1)
    ensures Admitted(limit, a) == Admitted(limit, b)
  {
    LastDecision(limit, a);
    LastDecision(limit, b);
  }

  lemma TimelyFront(calls: seq<Call>)
    requires Timely(calls) && calls != []
    ensures Timely(calls[..|calls| - 1])
  {
  }

  lemma TimelyWithout(before: seq<Call>, dropped: Call, later: seq<Call>)
    requires Timely(before + [dropped] + later)
    ensures Timely(before + later)
  {
    var with, without := before + [dropped] + later, before + later;
    forall i, j | 0 <= i < j < |without| ensures without[i].now <= without[j].now {
      var i', j' := if i < |before| then i else i + 1, if j < |before| then j else j + 1;
      assert without[i] == with[i'] && without[j] == with[j'];
    }
  }

  // ---------------------------------------------------------------------------
  // SlidingWindowCounter
  // ---------------------------------------------------------------------------

  function Amount(events: seq<Stamped<int>>): int
  {
    if events == [] then 0 else Amount(events[..|events| - 1]) + events[|events| - 1].item
  }

  class SlidingWindowCounter {
    const window: real
    var events: seq<Stamped<int>>

    /** Everything ever added, and the time of the last call. */
    ghost var added: seq<Stamped<int>>
    ghost var clock: real

    ghost predicate Valid()
      reads this
    {
      && Chronological(added)
      && (forall i :: 0 <= i < |added| ==> added[i].at <= clock)
      && Tracks(events, added, clock - window)
    }

    constructor (window: real, now: real)
      ensures Valid() && this.window == window && added == [] && clock == now
    {
      this.window := window;
      events, added, clock := [], [], now;
    }

    method TrimTo(now: real)
      requires Valid() && clock <= now
      modifies this`events, this`clock
      ensures Valid() && clock == now && events == Since(added, now - window)
    {
      TrimTracks(events, added, clock - window, now - window);
      events := Trim(events, now - window);
      clock := now;
    }

    method Add(amount: int, now: real)
      requires Valid() && clock <= now
      modifies this
      ensures Valid() && clock == now && added == old(added) + [Stamped(now, amount)]
    {
      AppendTracks(events, added, Stamped(now, amount), clock - window);
      events := events + [Stamped(now, amount)];
      added := added + [Stamped(now, amount)];
      clock := now;
      TrimTracks(events, added, old(clock) - window, now - window);
      TrimTo(now);
    }

    /** The total is what was ever added, restricted to the window, whatever trimmed before. */
    method Total(now: real) returns (total: int)
      requires Valid() && clock <= now
      modifies this`events, this`clock
      ensures Valid() && clock == now
      ensures total == Amount(Since(added, now - window))
    {
      TrimTo(now);
      total := 0;
      for i := 0 to |events|
        invariant total == Amount(events[..i])
      {
        assert events[..i + 1][..i] == events[..i];
        total := total + events[i].item;
      }
      assert events[..|events|] == events;
    }

    /** When the oldest counted amount stops counting: at that moment it still counts. */
    method ResetAt(now: real) returns (at: real)
      requires Valid() && clock <= now
      modifies this`events, this`clock
      ensures Valid() && clock == now
      ensures at == if Since(added, now - window) == [] then now + window else Since(added, now - window)[0].at + window
    {
      TrimTo(now);
      at := if events == [] then now + window else events[0].at + window;
    }
  }

  // ---------------------------------------------------------------------------
  // ConcurrencyLimiter
  // ---------------------------------------------------------------------------

  /** One request that holds a slot of a subject. */
  datatype Hold = Hold(subject: string, stream: bool)

  function Lookup(counts: map<string, int>, subject: string): int
  {
    if subject in counts then counts[subject] else 0
  }

  /** Stores a count; a count of zero is removed from the dictionary. */
  function Store(counts: map<string, int>, subject: string, count: int): map<string, int>
  {
    if count == 0 then counts - {subject} else counts[subject := count]
  }

  class ConcurrencyLimiter {
    var limit: int
    var streamsLimit: int
    var active: map<string, int>
    var streams: map<string, int>

    /** The requests that hold a slot. */
    ghost var held: multiset<Hold>

    /** The dictionaries count the holders, subject by subject. */
    ghost predicate Valid()
      reads this
    {
      forall s ::
        && Lookup(active, s) == held[Hold(s, false)] + held[Hold(s, true)]
        && Lookup(streams, s) == held[Hold(s, true)]
    }

    constructor (limit: int, streamsLimit: int)
      ensures Valid() && held == multiset{} && this.limit == limit && this.streamsLimit == streamsLimit
    {
      this.limit, this.streamsLimit := limit, streamsLimit;
      active, streams, held := map[], map[], multiset{};
    }

    /** `limit or self.limit`, at least 1: a missing or zero individual limit means the common one. */
    function EffectiveLimit(own: Option<int>): int
      reads this`limit
    {
      Max(1, if own.Some? && own.value != 0 then own.value else limit)
    }

    function EffectiveStreamsLimit(own: Option<int>): int
      reads this`streamsLimit
    {
      Max(0, if own.Some? then own.value else streamsLimit)
    }

    /** A slot is granted exactly when the subject has room, for streams also stream room;
        afterwards the subject holds at most its limits. */
    method Acquire(subject: string, stream: bool, own: Option<int>, ownStreams: Option<int>) returns (granted: bool)
      requires Valid()
      modifies this`active, this`streams, this`held
      ensures Valid()
      ensures held == if granted then old(held) + multiset{Hold(subject, stream)} else old(held)
      ensures EffectiveLimit(own) == Max(1, if own.Some? && own.value != 0 then own.value else limit)
      ensures EffectiveStreamsLimit(ownStreams) == Max(0, if ownStreams.Some? then ownStreams.value else streamsLimit)
      ensures granted <==>
        && old(held)[Hold(subject, false)] + old(held)[Hold(subject, true)] < EffectiveLimit(own)
        && (stream && EffectiveStreamsLimit(ownStreams) != 0 ==> old(held)[Hold(subject, true)] < EffectiveStreamsLimit(ownStreams))
      ensures granted ==> held[Hold(subject, false)] + held[Hold(subject, true)] <= EffectiveLimit(own)
      ensures granted && stream && EffectiveStreamsLimit(ownStreams) != 0 ==> held[Hold(subject, true)] <= EffectiveStreamsLimit(ownStreams)
    {
      if EffectiveLimit(own) <= Lookup(active, subject) {
        return false;
      }
      var cap := EffectiveStreamsLimit(ownStreams);
      if stream && cap != 0 && cap <= Lookup(streams, subject) {
        return false;
      }
      active := active[subject := Lookup(active, subject) + 1];
      if stream {
        streams := streams[subject := Lookup(streams, subject) + 1];
      }
      held := held + multiset{Hold(subject, stream)};
      granted := true;
    }

    /** Giving back a held slot frees exactly that slot; the floor at zero is never reached. */
    method Release(subject: string, stream: bool)
      requires Valid() && Hold(subject, stream) in held
      modifies this`active, this`streams, this`held
      ensures Valid() && held == old(held) - multiset{Hold(subject, stream)}
      ensures Lookup(active, subject) == Lookup(old(active), subject) - 1
    {
      active := Store(active, subject, Max(0, Lookup(active, subject) - 1));
      if stream {
        streams := Store(streams, subject, Max(0, Lookup(streams, subject) - 1));
      }
      held := held - multiset{Hold(subject, stream)};
    }

    /** A user's request: an individual limit of 0 means the common one, a streams limit of 0 none. The
        slots counted are those of the same key, or of all requests without one. */
    method EnterUserSlot(key: string, stream: bool, own: int) returns (granted: bool)
      requires Valid()
      modifies this`active, this`streams, this`held
      ensures Valid()
      ensures var subject := if key == "" then "anonymous" else key;
        && held == (if granted then old(held) + multiset{Hold(subject, stream)} else old(held))
        && (granted <==>
              && old(held)[Hold(subject, false)] + old(held)[Hold(subject, true)] < Max(1, if own != 0 then own else limit)
              && (stream && streamsLimit > 0 ==> old(held)[Hold(subject, true)] < streamsLimit))
      ensures forall s :: s != Subject(key) ==> held[Hold(s, false)] == old(held)[Hold(s, false)] && held[Hold(s, true)] == old(held)[Hold(s, true)]
    {
      var cap := EffectiveLimit(if own != 0 then Some(own) else None);
      var streamsCap := if streamsLimit != 0 then Some(streamsLimit) else None;
      granted := Acquire(Subject(key), stream, Some(cap), streamsCap);
    }

    /** The end of that request. */
    method LeaveUserSlot(key: string, stream: bool)
      requires Valid() && Hold(Subject(key), stream) in held
      modifies this`active, this`streams, this`held
      ensures Valid()
      ensures held == old(held) - multiset{Hold(if key == "" then "anonymous" else key, stream)}
    {
      Release(Subject(key), stream);
    }
  }

  /** Requests without a key share one subject. */
  function Subject(key: string): string
  {
    if key == "" then "anonymous" else key
  }

  /** Different keys have different subjects, so they never share slots; only the key "anonymous" shares
      the subject of the requests without a key. */
  lemma SubjectsDiffer(a: string, b: string)
    ensures Subject(a) == Subject(b) <==> a == b || {a, b} == {"", "anonymous"}
  {
    if a != b && Subject(a) == Subject(b) {
      assert a == "" || b == "";
    }
  }

  /** Amounts add up: one by one, and over parts of a history. */
  lemma {:induction false} AmountAdds(a: seq<Stamped<int>>, e: Stamped<int>, b: seq<Stamped<int>>)
    ensures Amount([]) == 0 && Amount(a + [e] + b) == Amount(a) + e.item + Amount(b)
  {
    if b == [] {
      assert a + [e] + b == a + [e] && (a + [e])[..|a|] == a;
    } else {
      var front := b[..|b| - 1];
      AmountAdds(a, e, front);
      assert (a + [e] + b)[..|a + [e] + b| - 1] == a + [e] + front;
    }
  }
}
