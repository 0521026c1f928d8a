/** The hourly request budget of a node, which is checked when the node is picked and counted
    only after the database reads: how far concurrent requests can overshoot it. */
module HourBudget {
  import opened Common
  import opened Ndjson
  import opened NodeRuntime

  /** The counters of the hour and the requests between their pick and their count. */
  datatype Budget = Budget(hour: Hour, pending: nat)

  /** Apart from picks, notes and abandoned picks, the hour may roll over when the node is merely looked
      at and when tokens of an answer are booked. */
  datatype Event = Picked(now: real) | Noted(now: real) | Abandoned | Seen(now: real) | Booked(tokens: int, now: real)

  /** None if the event cannot happen: a pick beyond the concurrency or the budget, or a note or
      an abandonment with nothing pending. */
  function Next(b: Budget, e: Event, maxRequests: int, maxTokens: int, concurrency: nat): Option<Budget>
  {
    match e
    case Picked(now) =>
      var hour := Rolled(b.hour, now);
      if b.pending < concurrency && WithinBudget(hour, maxRequests, maxTokens) then Some(Budget(hour, b.pending + 1)) else None
    case Noted(now) =>
      var hour := Rolled(b.hour, now);
      if b.pending > 0 then Some(Budget(hour.(requests := hour.requests + 1), b.pending - 1)) else None
    case Seen(now) => Some(b.(hour := Rolled(b.hour, now)))
    case Booked(tokens, now) => Some(b.(hour := WithTokens(b.hour, tokens, now)))
    case Abandoned =>
      if b.pending > 0 then Some(b.(pending := b.pending - 1)) else None
  }

  function Run(start: Budget, events: seq<Event>, maxRequests: int, maxTokens: int, concurrency: nat): Option<Budget>
  {
    if events == [] then Some(start)
    else
      match Run(start, Front(events), maxRequests, maxTokens, concurrency)
      case None => None
      case Some(b) => Next(b, Last(events), maxRequests, maxTokens, concurrency)
  }

  /** With at most K requests between pick and count, the hour's requests and the pending ones stay
      below limit + K in every reachable state, across roll-overs. */
  lemma {:induction false} OvershootIsBounded(events: seq<Event>, startedAt: real, maxRequests: int, maxTokens: int, concurrency: nat)
    requires maxRequests >= 1 && concurrency >= 1
    ensures match Run(Budget(Hour(startedAt, 0, 0), 0), events, maxRequests, maxTokens, concurrency)
      case None => true
      case Some(b) => b.hour.requests + b.pending <= maxRequests + concurrency - 1 && b.pending <= concurrency
  {
    if events != [] {
      OvershootIsBounded(Front(events), startedAt, maxRequests, maxTokens, concurrency);
    }
  }

  /** 3600 seconds after it began the hour's budget is whole again, and no sooner: a pick then needs no more
      than a free place, before that also requests and tokens left; 0 is no limit. */
  lemma {:induction false} BudgetReturns(b: Budget, now: real, maxRequests: int, maxTokens: int, concurrency: nat)
    requires maxRequests >= 0 && maxTokens >= 0
    ensures var picked, over := Next(b, Picked(now), maxRequests, maxTokens, concurrency), now - b.hour.startedAt >= 3600.0;
      && (picked.Some? <==>
            && b.pending < concurrency
            && (over || maxRequests == 0 || b.hour.requests < maxRequests)
            && (over || maxTokens == 0 || b.hour.tokens < maxTokens))
      && (picked.Some? ==> picked.value == Budget(if over then Hour(now, 0, 0) else b.hour, b.pending + 1))
  {
  }

  /** The moment an event looks at the clock of the hour, if it does. */
  function LookedAt(e: Event): Option<real>
  {
    match e
    case Picked(now) => Some(now)
    case Noted(now) => Some(now)
    case Seen(now) => Some(now)
    case Booked(tokens, now) => if tokens == 0 then None else Some(now)
    case Abandoned => None
  }

  /** The hour in which the last event of a run falls begins with the first event 3600 seconds or more after
      the one before began. */
  function HourBegan(startedAt: real, events: seq<Event>): real
  {
    if events == [] then startedAt
    else
      var before := HourBegan(startedAt, Front(events));
      match LookedAt(Last(events))
      case Some(now) => if now - before >= 3600.0 then now else before
      case None => before
  }

  /** The requests noted and the tokens booked since the running hour began. */
  function NotedSince(startedAt: real, events: seq<Event>): nat
  {
    if events == [] then 0
    else
      var begins := HourBegan(startedAt, events) != HourBegan(startedAt, Front(events));
      (if begins then 0 else NotedSince(startedAt, Front(events))) + if Last(events).Noted? then 1 else 0
  }

  function BookedSince(startedAt: real, events: seq<Event>): int
  {
    if events == [] then 0
    else
      var begins := HourBegan(startedAt, events) != HourBegan(startedAt, Front(events));
      (if begins then 0 else BookedSince(startedAt, Front(events))) + if Last(events).Booked? then Last(events).tokens else 0
  }

  /** The requests between their pick and their note. */
  function Underway(events: seq<Event>): int
  {
    if events == [] then 0
    else Underway(Front(events)) + match Last(events) case Picked(_) => 1 case Noted(_) => -1 case Abandoned => -1 case _ => 0
  }

  /** The counters are what the history says: noted and booked since the hour began, picked and not yet noted. */
  lemma {:induction false} CountersAreHistory(events: seq<Event>, startedAt: real, maxRequests: int, maxTokens: int, concurrency: nat)
    ensures match Run(Budget(Hour(startedAt, 0, 0), 0), events, maxRequests, maxTokens, concurrency)
      case None => true
      case Some(b) =>
        && b.hour == Hour(HourBegan(startedAt, events), NotedSince(startedAt, events), BookedSince(startedAt, events))
        && b.pending == Underway(events)
  {
    if events != [] {
      CountersAreHistory(Front(events), startedAt, maxRequests, maxTokens, concurrency);
    }
  }

  function Repeat(events: seq<Event>, times: nat): seq<Event>
  {
    if times == 0 then [] else Repeat(events, times - 1) + events
  }

  lemma RunSnoc(start: Budget, events: seq<Event>, e: Event, maxRequests: int, maxTokens: int, concurrency: nat)
    ensures Run(start, events + [e], maxRequests, maxTokens, concurrency) == match Run(start, events, maxRequests, maxTokens, concurrency)
      case None => None
      case Some(b) => Next(b, e, maxRequests, maxTokens, concurrency)
  {
    assert Front(events + [e]) == events;
  }

  lemma {:induction false} OneByOne(startedAt: real, n: nat, maxRequests: int, concurrency: nat)
    requires n < maxRequests && concurrency >= 1
    ensures Run(Budget(Hour(startedAt, 0, 0), 0), Repeat([Picked(startedAt), Noted(startedAt)], n), maxRequests, 0, concurrency)
      == Some(Budget(Hour(startedAt, n, 0), 0))
  {
    if n > 0 {
      OneByOne(startedAt, n - 1, maxRequests, concurrency);
      var start, before := Budget(Hour(startedAt, 0, 0), 0), Repeat([Picked(startedAt), Noted(startedAt)], n - 1);
      RunSnoc(start, before, Picked(startedAt), maxRequests, 0, concurrency);
      RunSnoc(start, before + [Picked(startedAt)], Noted(startedAt), maxRequests, 0, concurrency);
      assert before + [Picked(startedAt), Noted(startedAt)] == before + [Picked(startedAt)] + [Noted(startedAt)];
    }
  }

  lemma {:induction false} PicksTogether(startedAt: real, k: nat, maxRequests: int, concurrency: nat)
    requires maxRequests >= 1 && k <= concurrency && concurrency >= 1
    ensures Run(Budget(Hour(startedAt, 0, 0), 0),
        Repeat([Picked(startedAt), Noted(startedAt)], maxRequests - 1) + Repeat([Picked(startedAt)], k), maxRequests, 0, concurrency)
      == Some(Budget(Hour(startedAt, maxRequests - 1, 0), k))
  {
    var start, before := Budget(Hour(startedAt, 0, 0), 0), Repeat([Picked(startedAt), Noted(startedAt)], maxRequests - 1);
    if k == 0 {
      OneByOne(startedAt, maxRequests - 1, maxRequests, concurrency);
      assert before + [] == before;
    } else {
      PicksTogether(startedAt, k - 1, maxRequests, concurrency);
      var picks := Repeat([Picked(startedAt)], k - 1);
      Regroup(before, picks, [Picked(startedAt)]);
      RunSnoc(start, before + picks, Picked(startedAt), maxRequests, 0, concurrency);
      OnePick(startedAt, k, maxRequests, concurrency);
    }
  }

  lemma OnePick(startedAt: real, k: nat, maxRequests: int, concurrency: nat)
    requires 0 < k <= concurrency && maxRequests >= 1
    ensures Next(Budget(Hour(startedAt, maxRequests - 1, 0), k - 1), Picked(startedAt), maxRequests, 0, concurrency)
      == Some(Budget(Hour(startedAt, maxRequests - 1, 0), k))
  {
  }

  /** The bound is tight: K requests picked together just below the limit reach it. */
  lemma {:induction false} OvershootIsReached(startedAt: real, maxRequests: int, concurrency: nat) returns (events: seq<Event>)
    requires maxRequests >= 1 && concurrency >= 1
    ensures match Run(Budget(Hour(startedAt, 0, 0), 0), events, maxRequests, 0, concurrency)
      case None => false
      case Some(b) => b.hour.requests + b.pending == maxRequests + concurrency - 1
  {
    PicksTogether(startedAt, concurrency, maxRequests, concurrency);
    events := Repeat([Picked(startedAt), Noted(startedAt)], maxRequests - 1) + Repeat([Picked(startedAt)], concurrency);
  }
}
