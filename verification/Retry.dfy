/** One request over several nodes: bounded retries for plain and streamed answers.
    Everything outside the gateway (pool contents, database, other requests, upstream nodes)
    is an arbitrary `World`. */
module Retry {
  import opened Common
  import opened Sequences
  import opened Ndjson
  import opened Tokens
  import TokenCuts

  datatype Kind = Connect | Read | Unspecified

  /** `Uncaught` is any exception outside the classified ones, or a cancellation. */
  datatype Error =
    | NoHealthyNodes
    | ModelNotFound
    | Upstream(kind: Kind)
    | UpstreamTimeout(kind: Kind)
    | NodeAnswered(status: int)
    | Uncaught

  /** How one exchange with a node ends; `Escaped` is an exception that no branch catches. */
  datatype Outcome =
    | Failed(error: Error)
    | TimedOut
    | Answered(status: int, body: seq<Byte>)
    | Escaped

  /** One round of the waiting loop: what the pool, the consent re-check and the slot say. */
  datatype Poll =
    | Rejected(error: Error)
    | Picked(node: NodeId, healthy: bool, free: bool)

  /** The pool as one request sees it: what each round of each attempt offers, and the number of
      rounds that fit into the waiting time. */
  datatype Pool = Pool(poll: (nat, nat, set<NodeId>) -> Poll, patience: nat -> nat)

  /** Pool, nodes, whether the observation that follows a released slot comes to its end or is cut off
      by a cancellation, and the token counters, which may raise (module Tokens says when). */
  datatype World = World(
    pool: Pool,
    answer: (nat, NodeId) -> Outcome,
    notes: (nat, NodeId) -> bool,
    stream: (nat, NodeId) -> Opening,
    count: seq<Byte> -> Option<nat>,
    countChunk: seq<Byte> -> Option<int>)

  /** Opening a stream. A stream that does not complete ends after `cut` chunks, where the relay waits for
      the next one or for its reader, the only places where a client can leave; it is not `closes` if a
      cancellation arrives while it is being closed. */
  datatype Opening =
    | NotOpened(error: Error)
    | OpenTimedOut
    | OpenEscaped
    | Opened(status: int, chunks: seq<seq<Byte>>, cut: nat, ending: Ending, closes: bool)

  datatype Ending = Complete | Broken(error: Error) | ClientLeft

  /** The pool never offers an excluded node and has two ways to refuse (proved of
      `NodePool.Pick` in module Balancer). */
  ghost predicate Honours(pool: Pool)
  {
    forall attempt, round, exclude :: PoolAnswer(pool.poll(attempt, round, exclude), exclude)
  }

  predicate PoolAnswer(p: Poll, exclude: set<NodeId>)
  {
    match p
    case Picked(node, _, _) => node !in exclude
    case Rejected(error) => error == NoHealthyNodes || error == ModelNotFound
  }

  /** What happens to slots, nodes and statistics, in order. */
  datatype Step =
    | Dropped(node: NodeId)
    | Taken(node: NodeId)
    | Closed(node: NodeId)
    | Returned(node: NodeId)
    | Observed(node: NodeId, ok: bool, status: int, tokens: int)

  /** A contacted node, the nodes that failed the re-check while waiting for it, the token count of
      its answer, None where counting raises, and whether the observation came to its end. */
  datatype Attempt = Attempt(dropped: seq<NodeId>, node: NodeId, outcome: Outcome, tokens: Option<nat>, noted: bool)

  datatype Result = Success(node: NodeId, status: int, body: seq<Byte>, attempts: nat) | Failure(error: Error)

  datatype Rules = Rules(maxRetries: int, allowRetry: bool, sideEffects: bool, retryAfterStart: bool)

  function Budget(rules: Rules): nat
  {
    1 + if rules.allowRetry then Max(0, rules.maxRetries) else 0
  }

  predicate IsConnectError(e: Error)
  {
    (e.Upstream? || e.UpstreamTimeout?) && e.kind == Connect
  }

  predicate MayRepeatAfterStart(rules: Rules)
  {
    !rules.sideEffects || rules.retryAfterStart
  }

  // ---------------------------------------------------------------------------
  // Waiting for a node: the specification
  // ---------------------------------------------------------------------------

  datatype Acquired = Granted(node: NodeId) | Denied(error: Error)

  function Elements<T>(s: seq<T>): set<T>
  {
    set x | x in s
  }

  /** The nodes that failed the re-check in the first `round` rounds. */
  function DroppedBy(pool: Pool, attempt: nat, exclude: set<NodeId>, round: nat): seq<NodeId>
  {
    if round == 0 then []
    else
      var before := DroppedBy(pool, attempt, exclude, round - 1);
      match pool.poll(attempt, round - 1, exclude + Elements(before))
      case Picked(node, healthy, _) => if healthy then before else before + [node]
      case Rejected(_) => before
  }

  /** What the pool says in a round, with the nodes dropped so far excluded. */
  function PollAt(pool: Pool, attempt: nat, exclude: set<NodeId>, round: nat): Poll
  {
    pool.poll(attempt, round, exclude + Elements(DroppedBy(pool, attempt, exclude, round)))
  }

  /** A round that neither grants nor refuses. */
  predicate PassesOver(p: Poll)
  {
    p.Picked? && !(p.healthy && p.free)
  }

  /** The waiting ends in this round: every earlier one passed over, and this one grants, refuses, or is
      the last one that the waiting time allows. */
  ghost predicate Settles(pool: Pool, attempt: nat, exclude: set<NodeId>, round: nat, r: Acquired, dropped: seq<NodeId>)
  {
    && round <= pool.patience(attempt)
    && (forall i: nat :: i < round ==> PassesOver(PollAt(pool, attempt, exclude, i)))
    && match r
       case Granted(node) =>
         PollAt(pool, attempt, exclude, round) == Picked(node, true, true) && dropped == DroppedBy(pool, attempt, exclude, round)
       case Denied(error) =>
         || (PollAt(pool, attempt, exclude, round) == Rejected(error) && dropped == DroppedBy(pool, attempt, exclude, round))
         || (error == NoHealthyNodes && round == pool.patience(attempt) && PassesOver(PollAt(pool, attempt, exclude, round))
             && dropped == DroppedBy(pool, attempt, exclude, round + 1))
  }

  ghost predicate Acquires(pool: Pool, attempt: nat, exclude: set<NodeId>, r: Acquired, dropped: seq<NodeId>)
  {
    exists round: nat :: Settles(pool, attempt, exclude, round, r, dropped)
  }

  /** The pool's answers leave exactly one outcome: no refusal without a cause. */
  lemma {:induction false} AcquiresOnce(pool: Pool, attempt: nat, exclude: set<NodeId>, r: Acquired, dropped: seq<NodeId>, q: Acquired, other: seq<NodeId>)
    requires Acquires(pool, attempt, exclude, r, dropped) && Acquires(pool, attempt, exclude, q, other)
    ensures r == q && dropped == other
  {
    var i: nat :| Settles(pool, attempt, exclude, i, r, dropped);
    var j: nat :| Settles(pool, attempt, exclude, j, q, other);
    SettlesNoEarlier(pool, attempt, exclude, i, r, dropped, j, q, other);
    SettlesNoEarlier(pool, attempt, exclude, j, q, other, i, r, dropped);
  }

  lemma SettlesNoEarlier(pool: Pool, attempt: nat, exclude: set<NodeId>, i: nat, r: Acquired, dropped: seq<NodeId>, j: nat, q: Acquired, other: seq<NodeId>)
    requires Settles(pool, attempt, exclude, i, r, dropped) && Settles(pool, attempt, exclude, j, q, other)
    ensures j <= i
  {
  }

  ghost predicate NoRepeats<T(!new)>(s: seq<T>)
  {
    forall i, j :: 0 <= i < j < |s| ==> s[i] != s[j]
  }

  // ---------------------------------------------------------------------------
  // Retrying: the specification
  // ---------------------------------------------------------------------------

  predicate Refused(status: int)
  {
    status == 401 || status == 403
  }

  /** The outcomes after which another node may be tried. */
  predicate Retryable(rules: Rules, o: Outcome)
  {
    match o
    case Failed(e) => IsConnectError(e)
    case TimedOut => MayRepeatAfterStart(rules)
    case Answered(status, _) => status >= 500 && MayRepeatAfterStart(rules)
    case Escaped => false
  }

  /** The attempt leaves by an exception before its slot is returned: nothing caught it, or counting
      the tokens of the answer raised. */
  predicate Leaks(a: Attempt)
  {
    a.outcome.Escaped? || (a.outcome.Answered? && a.tokens.None?)
  }

  /** The attempt leaves by an exception, before its slot is returned or while it is being observed. */
  predicate Escapes(a: Attempt)
  {
    Leaks(a) || !a.noted
  }

  predicate Retries(rules: Rules, a: Attempt)
  {
    !Escapes(a) && Retryable(rules, a.outcome)
  }

  /** What the caller gets when this attempt is the last one. */
  function Verdict(a: Attempt, attempts: nat): Result
  {
    if Escapes(a) then Failure(Uncaught)
    else match a.outcome
      case Failed(e) => Failure(e)
      case TimedOut => Failure(UpstreamTimeout(Unspecified))
      case Answered(status, body) =>
        if Refused(status) || status >= 500 then Failure(NodeAnswered(status)) else Success(a.node, status, body, attempts)
      case Escaped => Failure(Uncaught)
  }

  /** All nodes looked at, in order. */
  function Touched(trace: seq<Attempt>): seq<NodeId>
  {
    if trace == [] then [] else Touched(Front(trace)) + Last(trace).dropped + [Last(trace).node]
  }

  ghost predicate AllRetry(rules: Rules, trace: seq<Attempt>)
  {
    forall i :: 0 <= i < |trace| ==> Retries(rules, trace[i])
  }

  /** All attempts may be followed by another one, and the budget has one left. */
  ghost predicate GoesOn(rules: Rules, trace: seq<Attempt>)
  {
    AllRetry(rules, trace) && |trace| < Budget(rules)
  }

  /** The runs the retry rules allow: no node twice, none after a drop, only retryable outcomes
      before the last, and no stop before the budget is spent while a retry is still allowed. */
  ghost predicate IsRun(rules: Rules, trace: seq<Attempt>, dropped: seq<NodeId>, result: Result)
  {
    && NoRepeats(Touched(trace) + dropped)
    && |trace| <= Budget(rules)
    && if GoesOn(rules, trace)
       then result.Failure? && (result.error == NoHealthyNodes || result.error == ModelNotFound)
       else trace != [] && AllRetry(rules, Front(trace)) && dropped == [] && result == Verdict(Last(trace), |trace|)
  }

  function TokensOf(w: World, o: Outcome): Option<nat>
  {
    if o.Answered? then w.count(o.body) else Some(0)
  }

  /** The attempt got this node from the pool, and the outcome is what the node gave. */
  ghost predicate IsContact(w: World, attempt: nat, exclude: set<NodeId>, a: Attempt)
  {
    && Acquires(w.pool, attempt, exclude, Granted(a.node), a.dropped)
    && a.outcome == w.answer(attempt, a.node)
    && a.tokens == TokensOf(w, a.outcome)
    && a.noted == w.notes(attempt, a.node)
  }

  ghost predicate Faithful(w: World, trace: seq<Attempt>)
  {
    trace == []
    || (Faithful(w, Front(trace)) && IsContact(w, |trace| - 1, Elements(Touched(Front(trace))), Last(trace)))
  }

  /** The runs of one request in one world: a refusal, too, is what the pool said. */
  ghost predicate IsRunOf(w: World, rules: Rules, trace: seq<Attempt>, dropped: seq<NodeId>, result: Result)
  {
    && IsRun(rules, trace, dropped, result)
    && Faithful(w, trace)
    && (GoesOn(rules, trace) ==> Acquires(w.pool, |trace|, Elements(Touched(trace)), Denied(result.error), dropped))
  }

  function Drops(nodes: seq<NodeId>): seq<Step>
  {
    if nodes == [] then [] else Drops(Front(nodes)) + [Dropped(Last(nodes))]
  }

  function ObservationOf(a: Attempt): Step
    requires !Leaks(a)
  {
    if a.outcome.Answered? then Observed(a.node, a.outcome.status < 400, a.outcome.status, a.tokens.value)
    else Observed(a.node, false, 0, 0)
  }

  /** The slot is taken; it is returned and the exchange observed, unless an exception comes first. */
  function Steps(a: Attempt): seq<Step>
  {
    if Leaks(a) then [Taken(a.node)]
    else if !a.noted then [Taken(a.node), Returned(a.node)]
    else [Taken(a.node), Returned(a.node), ObservationOf(a)]
  }

  function Log(trace: seq<Attempt>): seq<Step>
  {
    if trace == [] then [] else Log(Front(trace)) + Drops(Last(trace).dropped) + Steps(Last(trace))
  }

  // ---------------------------------------------------------------------------
  // A world determines its run
  // ---------------------------------------------------------------------------

  lemma {:induction false} FaithfulPrefix(w: World, trace: seq<Attempt>, k: nat)
    requires Faithful(w, trace) && k < |trace|
    ensures Faithful(w, trace[..k]) && IsContact(w, k, Elements(Touched(trace[..k])), trace[k])
  {
    if k < |trace| - 1 {
      FaithfulPrefix(w, Front(trace), k);
      assert Front(trace)[..k] == trace[..k] && Front(trace)[k] == trace[k];
    } else {
      assert Front(trace) == trace[..k];
    }
  }

  lemma SameContact(w: World, attempt: nat, exclude: set<NodeId>, a: Attempt, b: Attempt)
    requires IsContact(w, attempt, exclude, a) && IsContact(w, attempt, exclude, b)
    ensures a == b
  {
    AcquiresOnce(w.pool, attempt, exclude, Granted(a.node), a.dropped, Granted(b.node), b.dropped);
  }

  lemma {:induction false} CommonPrefix(w: World, a: seq<Attempt>, b: seq<Attempt>, k: nat)
    requires Faithful(w, a) && Faithful(w, b) && k <= |a| && k <= |b|
    ensures a[..k] == b[..k]
  {
    if k > 0 {
      CommonPrefix(w, a, b, k - 1);
      FaithfulPrefix(w, a, k - 1);
      FaithfulPrefix(w, b, k - 1);
      SameContact(w, k - 1, Elements(Touched(a[..k - 1])), a[k - 1], b[k - 1]);
      PrefixSnoc(a, b, k - 1);
    }
  }

  lemma PrefixSnoc<T>(a: seq<T>, b: seq<T>, k: nat)
    requires k < |a| && k < |b| && a[..k] == b[..k] && a[k] == b[k]
    ensures a[..k + 1] == b[..k + 1]
  {
    assert a[..k + 1] == a[..k] + [a[k]] && b[..k + 1] == b[..k] + [b[k]];
  }

  lemma {:induction false} NoShorterRun(w: World, rules: Rules, a: seq<Attempt>, d: seq<NodeId>, r: Result, b: seq<Attempt>, e: seq<NodeId>, q: Result)
    requires IsRunOf(w, rules, a, d, r) && IsRunOf(w, rules, b, e, q)
    ensures |a| >= |b|
  {
    if |a| < |b| {
      CommonPrefix(w, a, b, |a|);
      assert a == b[..|a|];
      forall i | 0 <= i < |a|
        ensures Retries(rules, a[i])
      {
        if GoesOn(rules, b) {
          assert Retries(rules, b[i]);
        } else {
          assert Retries(rules, Front(b)[i]);
        }
      }
      FaithfulPrefix(w, b, |a|);
      AcquiresOnce(w.pool, |a|, Elements(Touched(a)), Denied(r.error), d, Granted(b[|a|].node), b[|a|].dropped);
    }
  }

  /** In one world there is one run: attempts, drops and result are all determined. */
  lemma {:induction false} RunIsDetermined(w: World, rules: Rules, a: seq<Attempt>, d: seq<NodeId>, r: Result, b: seq<Attempt>, e: seq<NodeId>, q: Result)
    requires IsRunOf(w, rules, a, d, r) && IsRunOf(w, rules, b, e, q)
    ensures a == b && d == e && r == q
  {
    NoShorterRun(w, rules, a, d, r, b, e, q);
    NoShorterRun(w, rules, b, e, q, a, d, r);
    CommonPrefix(w, a, b, |a|);
    assert a[..|a|] == a && b[..|b|] == b;
    if GoesOn(rules, a) {
      AcquiresOnce(w.pool, |a|, Elements(Touched(a)), Denied(r.error), d, Denied(q.error), e);
    }
  }

  // ---------------------------------------------------------------------------
  // The loops
  // ---------------------------------------------------------------------------

  lemma ElementsSnoc<T>(s: seq<T>, x: T)
    ensures Elements(s + [x]) == Elements(s) + {x}
  {
  }

  /** Dropped nodes are new and differ from each other. */
  ghost predicate Fresh(dropped: seq<NodeId>, exclude: set<NodeId>)
  {
    NoRepeats(dropped) && forall n :: n in dropped ==> n !in exclude
  }

  /** Waits for a node with a free slot that passes the re-check. */
  method Acquire(pool: Pool, attempt: nat, exclude: set<NodeId>) returns (r: Acquired, dropped: seq<NodeId>)
    requires Honours(pool)
    ensures Acquires(pool, attempt, exclude, r, dropped)
    ensures Fresh(dropped, exclude)
    ensures r.Granted? ==> r.node !in exclude && r.node !in dropped
    ensures r.Denied? ==> r.error == NoHealthyNodes || r.error == ModelNotFound
  {
    dropped := [];
    var round: nat := 0;
    var excluded := exclude;
    while true
      invariant round <= pool.patience(attempt)
      invariant excluded == exclude + Elements(dropped) && Fresh(dropped, exclude)
      invariant dropped == DroppedBy(pool, attempt, exclude, round)
      invariant forall i: nat :: i < round ==> PassesOver(PollAt(pool, attempt, exclude, i))
      decreases pool.patience(attempt) - round
    {
      var p := pool.poll(attempt, round, excluded);
      assert PoolAnswer(p, excluded);
      assert p == PollAt(pool, attempt, exclude, round);
      if p.Rejected? {
        assert Settles(pool, attempt, exclude, round, Denied(p.error), dropped);
        return Denied(p.error), dropped;
      }
      if p.healthy && p.free {
        assert Settles(pool, attempt, exclude, round, Granted(p.node), dropped);
        return Granted(p.node), dropped;
      }
      if !p.healthy {
        ElementsSnoc(dropped, p.node);
        excluded := excluded + {p.node};
        dropped := dropped + [p.node];
      }
      assert dropped == DroppedBy(pool, attempt, exclude, round + 1);
      if round >= pool.patience(attempt) {
        assert Settles(pool, attempt, exclude, round, Denied(NoHealthyNodes), dropped);
        return Denied(NoHealthyNodes), dropped;
      }
      round := round + 1;
    }
  }

  lemma NoRepeatsAppend(s: seq<NodeId>, more: seq<NodeId>, exclude: set<NodeId>)
    requires NoRepeats(s) && exclude == Elements(s) && Fresh(more, exclude)
    ensures NoRepeats(s + more)
  {
    var all := s + more;
    forall i, j | 0 <= i < j < |all|
      ensures all[i] != all[j]
    {
      if i < |s| <= j {
        assert all[i] in exclude && all[j] in more;
      }
    }
  }

  lemma TouchedSnoc(trace: seq<Attempt>, a: Attempt)
    ensures Touched(trace + [a]) == Touched(trace) + a.dropped + [a.node]
    ensures Log(trace + [a]) == Log(trace) + Drops(a.dropped) + Steps(a)
  {
    assert Front(trace + [a]) == trace;
  }

  /** What one more contact adds. */
  lemma ExtendTouched(trace: seq<Attempt>, a: Attempt, exclude: set<NodeId>)
    requires exclude == Elements(Touched(trace)) && NoRepeats(Touched(trace) + a.dropped)
    requires a.node !in exclude && a.node !in a.dropped
    ensures NoRepeats(Touched(trace + [a]))
    ensures exclude + Elements(a.dropped) + {a.node} == Elements(Touched(trace + [a]))
  {
    TouchedSnoc(trace, a);
    var before := Touched(trace) + a.dropped;
    assert forall n :: n in before ==> n in exclude || n in a.dropped;
    assert a.node !in before;
    ElementsSnoc(before, a.node);
    assert Elements(before) == exclude + Elements(a.dropped);
  }

  /** Between two attempts. */
  ghost predicate Running(w: World, rules: Rules, trace: seq<Attempt>, exclude: set<NodeId>, log: seq<Step>)
  {
    && GoesOn(rules, trace) && Faithful(w, trace) && log == Log(trace)
    && exclude == Elements(Touched(trace)) && NoRepeats(Touched(trace))
  }

  ghost predicate Advances(w: World, rules: Rules, trace: seq<Attempt>, exclude: set<NodeId>, log: seq<Step>, a: Attempt)
  {
    var all, longer := trace + [a], log + Drops(a.dropped) + Steps(a);
    && longer == Log(all)
    && if Retries(rules, a) && |all| < Budget(rules)
       then Running(w, rules, all, exclude + Elements(a.dropped) + {a.node}, longer)
       else IsRunOf(w, rules, all, [], Verdict(a, |all|))
  }

  /** One more contact: the request goes on, or this attempt decides it. */
  lemma Contact(w: World, rules: Rules, trace: seq<Attempt>, exclude: set<NodeId>, log: seq<Step>, a: Attempt)
    requires Running(w, rules, trace, exclude, log) && IsContact(w, |trace|, exclude, a)
    requires Fresh(a.dropped, exclude) && a.node !in exclude && a.node !in a.dropped
    ensures Advances(w, rules, trace, exclude, log, a)
  {
    NoRepeatsAppend(Touched(trace), a.dropped, exclude);
    TouchedSnoc(trace, a);
    ExtendTouched(trace, a, exclude);
    var all := trace + [a];
    assert Front(all) == trace && Last(all) == a && all[|trace|] == a;
    assert Touched(all) + [] == Touched(all);
  }

  lemma NoneFound(w: World, rules: Rules, trace: seq<Attempt>, exclude: set<NodeId>, log: seq<Step>, dropped: seq<NodeId>, e: Error)
    requires Running(w, rules, trace, exclude, log) && Fresh(dropped, exclude)
    requires Acquires(w.pool, |trace|, exclude, Denied(e), dropped)
    requires e == NoHealthyNodes || e == ModelNotFound
    ensures IsRunOf(w, rules, trace, dropped, Failure(e)) && log + Drops(dropped) == Log(trace) + Drops(dropped)
  {
    NoRepeatsAppend(Touched(trace), dropped, exclude);
  }

  /** The branches behind an exchange, in the order of the code; counting comes before the release. */
  method Classify(rules: Rules, a: Attempt, attemptsLeft: nat, attempts: nat) returns (stop: Option<Result>, steps: seq<Step>)
    ensures stop == if Retries(rules, a) && attemptsLeft > 0 then None else Some(Verdict(a, attempts))
    ensures stop.Some? && stop.value.Success? <==>
      && a.outcome.Answered? && a.tokens.Some? && a.noted
      && a.outcome.status < 500 && a.outcome.status != 401 && a.outcome.status != 403
    ensures steps == Steps(a)
  {
    var retryAfterStart := !rules.sideEffects || rules.retryAfterStart;
    stop, steps := None, [Taken(a.node)];
    if a.outcome.Escaped? || (a.outcome.Answered? && a.tokens.None?) {
      return Some(Failure(Uncaught)), steps;
    }
    steps := steps + [Returned(a.node)];
    if !a.noted {
      return Some(Failure(Uncaught)), steps;
    }
    match a.outcome {
      case Failed(e) =>
        steps := steps + [Observed(a.node, false, 0, 0)];
        if !IsConnectError(e) || attemptsLeft == 0 {
          stop := Some(Failure(e));
        }
      case TimedOut =>
        steps := steps + [Observed(a.node, false, 0, 0)];
        if attemptsLeft == 0 || !retryAfterStart {
          stop := Some(Failure(UpstreamTimeout(Unspecified)));
        }
      case Answered(status, body) =>
        steps := steps + [Observed(a.node, status < 400, status, a.tokens.value)];
        if status == 401 || status == 403 {
          stop := Some(Failure(NodeAnswered(status)));
        } else if status < 500 {
          stop := Some(Success(a.node, status, body, attempts));
        } else if attemptsLeft == 0 || !retryAfterStart {
          stop := Some(Failure(NodeAnswered(status)));
        }
    }
  }

  datatype Tried = Contacted(attempt: Attempt) | NoNode(error: Error, dropped: seq<NodeId>)

  /** One attempt: a node and its outcome, or the pool's refusal. */
  method TryOnce(w: World, rules: Rules, ghost trace: seq<Attempt>, attempt: nat, exclude: set<NodeId>, ghost log: seq<Step>)
    returns (t: Tried)
    requires Honours(w.pool) && Running(w, rules, trace, exclude, log) && attempt == |trace|
    ensures t.Contacted? ==> Advances(w, rules, trace, exclude, log, t.attempt)
    ensures t.NoNode? ==> IsRunOf(w, rules, trace, t.dropped, Failure(t.error)) && log == Log(trace)
  {
    var got, dropped := Acquire(w.pool, attempt, exclude);
    if got.Denied? {
      NoneFound(w, rules, trace, exclude, log, dropped, got.error);
      return NoNode(got.error, dropped);
    }
    var outcome := w.answer(attempt, got.node);
    var a := Attempt(dropped, got.node, outcome, if outcome.Answered? then w.count(outcome.body) else Some(0),
      w.notes(attempt, got.node));
    Contact(w, rules, trace, exclude, log, a);
    t := Contacted(a);
  }

  method RequestJson(w: World, rules: Rules) returns (r: Result, trace: seq<Attempt>, dropped: seq<NodeId>, log: seq<Step>)
    requires Honours(w.pool)
    ensures IsRunOf(w, rules, trace, dropped, r)
    ensures log == Log(trace) + Drops(dropped)
  {
    trace, dropped, log := [], [], [];
    var attemptsLeft := Budget(rules);
    var exclude: set<NodeId> := {};
    while attemptsLeft > 0
      invariant attemptsLeft > 0 && attemptsLeft + |trace| == Budget(rules)
      invariant Running(w, rules, trace, exclude, log)
    {
      attemptsLeft := attemptsLeft - 1;
      var t := TryOnce(w, rules, trace, |trace|, exclude, log);
      if t.NoNode? {
        return Failure(t.error), trace, t.dropped, log + Drops(t.dropped);
      }
      var a := t.attempt;
      trace := trace + [a];
      var stop, steps := Classify(rules, a, attemptsLeft, |trace|);
      log := log + Drops(a.dropped) + steps;
      exclude := exclude + Elements(a.dropped) + {a.node};
      if stop.Some? {
        assert log + Drops([]) == log;
        return stop.value, trace, [], log;
      }
    }
    assert false;
  }

  // ---------------------------------------------------------------------------
  // What the retry rules give
  // ---------------------------------------------------------------------------

  /** The node may have begun to process the request. */
  predicate MayHaveStarted(o: Outcome)
  {
    !(o.Failed? && IsConnectError(o.error))
  }

  function Started(trace: seq<Attempt>): nat
  {
    if trace == [] then 0 else Started(Front(trace)) + if MayHaveStarted(Last(trace).outcome) then 1 else 0
  }

  lemma {:induction false} NoneStarted(rules: Rules, trace: seq<Attempt>)
    requires AllRetry(rules, trace) && !MayRepeatAfterStart(rules)
    ensures Started(trace) == 0
  {
    if trace != [] {
      assert Retries(rules, trace[|trace| - 1]);
      NoneStarted(rules, Front(trace));
    }
  }

  lemma {:induction false} StartedAtMostAll(trace: seq<Attempt>)
    ensures Started(trace) <= |trace|
  {
    if trace != [] {
      StartedAtMostAll(Front(trace));
    }
  }

  /** At most one node can have begun to process a request with side effects. */
  lemma {:induction false} OneStart(rules: Rules, trace: seq<Attempt>, dropped: seq<NodeId>, r: Result)
    requires IsRun(rules, trace, dropped, r)
    requires !MayRepeatAfterStart(rules) || Budget(rules) == 1
    ensures Started(trace) <= 1
  {
    if trace != [] && !MayRepeatAfterStart(rules) {
      assert AllRetry(rules, Front(trace));
      NoneStarted(rules, Front(trace));
    } else {
      StartedAtMostAll(trace);
    }
  }

  function OfferInTurn(a: NodeId, b: NodeId): (nat, nat, set<NodeId>) -> Poll
  {
    (attempt: nat, round: nat, exclude: set<NodeId>) =>
      if a !in exclude then Picked(a, true, true) else if b !in exclude then Picked(b, true, true) else Rejected(NoHealthyNodes)
  }

  /** Two free nodes; the first answers 500, the second 200. */
  function TwoNodes(a: NodeId, b: NodeId): World
  {
    World(
      Pool(OfferInTurn(a, b), (attempt: nat) => 0),
      (attempt: nat, node: NodeId) => Answered(if node == a then 500 else 200, []),
      (attempt: nat, node: NodeId) => true,
      (attempt: nat, node: NodeId) => OpenTimedOut,
      (body: seq<Byte>) => Some(0),
      (chunk: seq<Byte>) => Some(0))
  }

  lemma FirstRoundGrants(pool: Pool, attempt: nat, exclude: set<NodeId>, node: NodeId)
    requires pool.poll(attempt, 0, exclude) == Picked(node, true, true)
    ensures Acquires(pool, attempt, exclude, Granted(node), [])
  {
    assert exclude + Elements<NodeId>([]) == exclude;
    assert Settles(pool, attempt, exclude, 0, Granted(node), []);
  }

  /** Otherwise there is a world in which the request does start on two nodes: the condition of
      OneStart is exact. */
  lemma {:induction false} TwoStarts(rules: Rules, a: NodeId, b: NodeId, trace: seq<Attempt>, dropped: seq<NodeId>, r: Result)
    requires MayRepeatAfterStart(rules) && Budget(rules) > 1 && a != b
    requires IsRunOf(TwoNodes(a, b), rules, trace, dropped, r)
    ensures Honours(TwoNodes(a, b).pool)
    ensures Started(trace) == 2 && r == Success(b, 200, [], 2)
  {
    TwoNodesRun(rules, a, b);
    var first, second := FirstOf(a), SecondOf(b);
    RunIsDetermined(TwoNodes(a, b), rules, trace, dropped, r, [first, second], [], Success(b, 200, [], 2));
    assert Front([first, second]) == [first] && Front([first]) == [];
    assert Started([first]) == 1;
  }

  function FirstOf(a: NodeId): Attempt
  {
    Attempt([], a, Answered(500, []), Some(0), true)
  }

  function SecondOf(b: NodeId): Attempt
  {
    Attempt([], b, Answered(200, []), Some(0), true)
  }

  lemma TwoNodesContacts(a: NodeId, b: NodeId)
    requires a != b
    ensures IsContact(TwoNodes(a, b), 0, {}, FirstOf(a)) && IsContact(TwoNodes(a, b), 1, {a}, SecondOf(b))
    ensures Honours(TwoNodes(a, b).pool)
  {
    FirstRoundGrants(TwoNodes(a, b).pool, 0, {}, a);
    FirstRoundGrants(TwoNodes(a, b).pool, 1, {a}, b);
  }

  lemma TwoNodesRun(rules: Rules, a: NodeId, b: NodeId)
    requires MayRepeatAfterStart(rules) && Budget(rules) > 1 && a != b
    ensures IsRunOf(TwoNodes(a, b), rules, [FirstOf(a), SecondOf(b)], [], Success(b, 200, [], 2))
  {
    TwoNodesContacts(a, b);
    TwoContactsRun(TwoNodes(a, b), rules, FirstOf(a), SecondOf(b));
  }

  lemma TwoContactsRun(w: World, rules: Rules, first: Attempt, second: Attempt)
    requires IsContact(w, 0, {}, first) && IsContact(w, 1, {first.node}, second)
    requires first.dropped == second.dropped == [] && first.node != second.node
    requires Budget(rules) > 1 && Retries(rules, first) && !Retries(rules, second)
    ensures IsRunOf(w, rules, [first, second], [], Verdict(second, 2))
  {
    var both := [first, second];
    TouchedSnoc([], first);
    TouchedSnoc([first], second);
    assert [] + [first] == [first] && [first] + [second] == both;
    assert Touched([first]) == [first.node] && Touched(both) == [first.node, second.node];
    assert Front(both) == [first] && Front([first]) == [] && both[1] == second;
    assert Elements(Touched([])) == {} && Elements(Touched([first])) == {first.node};
    assert Touched(both) + [] == Touched(both);
  }

  /** The documented rule: a response timeout may be repeated whenever repeating after the start is allowed. */
  predicate DocumentedRetry(rules: Rules, o: Outcome)
  {
    match o
    case Failed(e) => IsConnectError(e) || (e.UpstreamTimeout? && MayRepeatAfterStart(rules))
    case TimedOut => MayRepeatAfterStart(rules)
    case Answered(status, _) => status >= 500 && MayRepeatAfterStart(rules)
    case Escaped => false
  }

  /** The code departs from it exactly for timeouts that the transport has already classified. */
  lemma DocumentedRetryGap(rules: Rules, o: Outcome)
    ensures Retryable(rules, o) == DocumentedRetry(rules, o)
      <==> !(o.Failed? && o.error.UpstreamTimeout? && o.error.kind != Connect && MayRepeatAfterStart(rules))
  {
  }

  /** What a step makes of the slot held; None once a second one was taken or a foreign one returned. */
  function Holds(held: Option<Option<NodeId>>, step: Step): Option<Option<NodeId>>
  {
    if held.None? then None
    else match step
      case Taken(n) => if held.value.None? then Some(Some(n)) else None
      case Returned(n) => if held.value == Some(n) then Some(None) else None
      case _ => held
  }

  /** The slot held after a log, or None if it took two, or returned one it did not hold. */
  function Held(log: seq<Step>): Option<Option<NodeId>>
  {
    if log == [] then Some(None) else Holds(Held(Front(log)), Last(log))
  }

  lemma HeldSnoc(log: seq<Step>, step: Step)
    ensures Held(log + [step]) == Holds(Held(log), step)
  {
    assert Front(log + [step]) == log;
  }

  lemma HeldTwo(log: seq<Step>, a: Step, b: Step)
    ensures Held(log + [a, b]) == Holds(Holds(Held(log), a), b)
  {
    HeldSnoc(log, a);
    HeldSnoc(log + [a], b);
    assert log + [a, b] == log + [a] + [b];
  }

  lemma HeldThree(log: seq<Step>, a: Step, b: Step, c: Step)
    ensures Held(log + [a, b, c]) == Holds(Holds(Holds(Held(log), a), b), c)
  {
    HeldTwo(log, a, b);
    HeldSnoc(log + [a, b], c);
    assert log + [a, b, c] == log + [a, b] + [c];
  }

  /** A request in flight has made the first steps of its log, which are as disciplined. */
  lemma {:induction false} HeldPrefix(log: seq<Step>, i: nat)
    requires i <= |log| && Held(log) != None
    ensures Held(log[..i]) != None
  {
    if i < |log| {
      HeldPrefix(Front(log), i);
      assert Front(log)[..i] == log[..i];
    } else {
      assert log[..i] == log;
    }
  }

  lemma {:induction false} HeldDrops(log: seq<Step>, nodes: seq<NodeId>)
    ensures Held(log + Drops(nodes)) == Held(log)
  {
    if nodes == [] {
      assert log + [] == log;
    } else {
      HeldDrops(log, Front(nodes));
      HeldSnoc(log + Drops(Front(nodes)), Dropped(Last(nodes)));
      assert log + Drops(nodes) == log + Drops(Front(nodes)) + [Dropped(Last(nodes))];
    }
  }

  lemma HeldSteps(log: seq<Step>, a: Attempt)
    requires Held(log) == Some(None)
    ensures Held(log + Steps(a)) == if Leaks(a) then Some(Some(a.node)) else Some(None)
  {
    if Leaks(a) {
      HeldSnoc(log, Taken(a.node));
    } else if !a.noted {
      HeldTwo(log, Taken(a.node), Returned(a.node));
    } else {
      HeldThree(log, Taken(a.node), Returned(a.node), ObservationOf(a));
    }
  }

  /** Attempts that do not leak leave no slot behind. */
  lemma {:induction false} NoLeakNoSlot(trace: seq<Attempt>)
    requires forall i :: 0 <= i < |trace| ==> !Leaks(trace[i])
    ensures Held(Log(trace)) == Some(None)
  {
    if trace != [] {
      NoLeakNoSlot(Front(trace));
      HeldDrops(Log(Front(trace)), Last(trace).dropped);
      HeldSteps(Log(Front(trace)) + Drops(Last(trace).dropped), Last(trace));
    }
  }

  /** What a request holds at its end: nothing, or the slot of its last node if that attempt leaked. */
  function LeftOver(trace: seq<Attempt>): Option<NodeId>
  {
    if trace != [] && Leaks(Last(trace)) then Some(Last(trace).node) else None
  }

  /** One slot at a time, each returned by the node's own release; at the end none is held exactly
      if no attempt ended in an uncaught exception, such as an answer whose tokens cannot be counted. */
  lemma {:induction false} SlotsReturned(rules: Rules, trace: seq<Attempt>, dropped: seq<NodeId>, r: Result)
    requires IsRun(rules, trace, dropped, r)
    ensures Held(Log(trace) + Drops(dropped)) == Some(LeftOver(trace))
    ensures LeftOver(trace) == None <==> forall i :: 0 <= i < |trace| ==> !Leaks(trace[i])
  {
    HeldDrops(Log(trace), dropped);
    if trace != [] {
      var front, last := Front(trace), Last(trace);
      OnlyLastLeaks(rules, trace, dropped, r);
      NoLeakNoSlot(front);
      HeldDrops(Log(front), last.dropped);
      HeldSteps(Log(front) + Drops(last.dropped), last);
    }
  }

  lemma OnlyLastLeaks(rules: Rules, trace: seq<Attempt>, dropped: seq<NodeId>, r: Result)
    requires IsRun(rules, trace, dropped, r) && trace != []
    ensures forall i :: 0 <= i < |trace| - 1 ==> !Leaks(trace[i])
    ensures forall i :: 0 <= i < |trace| - 1 ==> !Leaks(Front(trace)[i])
  {
    forall i | 0 <= i < |trace| - 1
      ensures !Leaks(trace[i]) && !Leaks(Front(trace)[i])
    {
      if GoesOn(rules, trace) {
        assert Retries(rules, trace[i]);
      } else {
        assert Retries(rules, Front(trace)[i]);
      }
    }
  }

  /** In terms of the world: the slots are back exactly if every exchange was classified and every
      answer received could be counted. */
  lemma {:induction false} SlotsReturnedExactly(w: World, rules: Rules, trace: seq<Attempt>, dropped: seq<NodeId>, r: Result)
    requires IsRunOf(w, rules, trace, dropped, r)
    ensures Held(Log(trace) + Drops(dropped)) == Some(None) <==> forall i :: 0 <= i < |trace| ==> Countable(w, trace[i].outcome)
  {
    SlotsReturned(rules, trace, dropped, r);
    forall i | 0 <= i < |trace|
      ensures Leaks(trace[i]) <==> !Countable(w, trace[i].outcome)
    {
      FaithfulPrefix(w, trace, i);
    }
  }

  predicate Countable(w: World, o: Outcome)
  {
    !o.Escaped? && (o.Answered? ==> w.count(o.body).Some?)
  }

  /** A node that answers with a token count which is no number keeps its slot taken for good. */
  lemma {:induction false} UncountableAnswerLeaks(w: World, rules: Rules, decode: JsonDecoder, parse: ParseInt, node: NodeId, skipped: seq<NodeId>,
      status: int, body: seq<Byte>, evalCount: Value, trace: seq<Attempt>, dropped: seq<NodeId>, r: Result)
    requires IsRunOf(w, rules, trace, dropped, r)
    requires Acquires(w.pool, 0, {}, Granted(node), skipped) && w.answer(0, node) == Answered(status, body)
    requires w.count(body) == CountTokens(decode, parse, body)
    requires decode(body) == Record(true, evalCount, Absent) && IsUncountable(parse, evalCount)
    ensures Log(trace) + Drops(dropped) == Drops(skipped) + [Taken(node)]
    ensures Held(Log(trace) + Drops(dropped)) == Some(Some(node)) && r == Failure(Uncaught)
  {
    FirstContact(w, rules, trace, dropped, r, node, skipped);
    AnswerFailsExactly(decode, parse, body);
    LeakIsLast(rules, trace, dropped, r, 0);
    OneAttemptLog(trace);
    SlotsReturned(rules, trace, dropped, r);
  }

  lemma OneAttemptLog(trace: seq<Attempt>)
    requires |trace| == 1
    ensures Log(trace) + Drops([]) == Drops(trace[0].dropped) + Steps(trace[0])
  {
    assert Front(trace) == [] && Last(trace) == trace[0];
    assert [] + Drops(trace[0].dropped) == Drops(trace[0].dropped);
  }

  /** If the pool grants a node at once, the first attempt is on it. */
  lemma FirstContact(w: World, rules: Rules, trace: seq<Attempt>, dropped: seq<NodeId>, r: Result, node: NodeId, skipped: seq<NodeId>)
    requires IsRunOf(w, rules, trace, dropped, r) && Acquires(w.pool, 0, {}, Granted(node), skipped)
    ensures trace != []
    ensures var o := w.answer(0, node); trace[0] == Attempt(skipped, node, o, TokensOf(w, o), w.notes(0, node))
  {
    assert Touched([]) == [] && Elements<NodeId>([]) == {};
    if trace == [] {
      AcquiresOnce(w.pool, 0, {}, Denied(r.error), dropped, Granted(node), skipped);
    } else {
      FaithfulPrefix(w, trace, 0);
      assert trace[..0] == [];
      AcquiresOnce(w.pool, 0, {}, Granted(trace[0].node), trace[0].dropped, Granted(node), skipped);
    }
  }

  lemma LeakIsLast(rules: Rules, trace: seq<Attempt>, dropped: seq<NodeId>, r: Result, i: nat)
    requires IsRun(rules, trace, dropped, r) && i < |trace| && Leaks(trace[i])
    ensures i == |trace| - 1 && dropped == [] && r == Failure(Uncaught)
  {
    assert !Retries(rules, trace[i]);
  }

  // ---------------------------------------------------------------------------
  // Streamed answers
  // ---------------------------------------------------------------------------

  /** A stream is opened under the rules for side effects that must not happen twice. */
  function StreamRules(maxRetries: int, retryStreaming: bool): Rules
  {
    Rules(maxRetries, retryStreaming, true, false)
  }

  function OutcomeOf(o: Opening): Outcome
  {
    match o
    case NotOpened(e) => Failed(e)
    case OpenTimedOut => TimedOut
    case OpenEscaped => Escaped
    case Opened(status, _, _, _, _) => Answered(status, [])
  }

  /** The world in which opening a stream is the exchange; nothing is counted yet. */
  function StreamWorld(w: World): World
  {
    w.(answer := (attempt: nat, node: NodeId) => OutcomeOf(w.stream(attempt, node)),
       notes := (attempt: nat, node: NodeId) => w.stream(attempt, node).Opened? || w.notes(attempt, node),
       count := (body: seq<Byte>) => Some(0))
  }

  datatype OpenResult = Streaming(node: NodeId) | NoStream(error: Error)

  /** The attempt that opened the stream. */
  function OpenedBy(w: World, attempt: nat, dropped: seq<NodeId>, node: NodeId): Attempt
  {
    var o := w.stream(attempt, node);
    Attempt(dropped, node, OutcomeOf(o), Some(0), o.Opened? || w.notes(attempt, node))
  }

  ghost predicate NoneAnswered(trace: seq<Attempt>)
  {
    forall i :: 0 <= i < |trace| ==> !trace[i].outcome.Answered?
  }

  /** The runs of opening a stream in one world; an opened stream is a deciding last attempt. */
  ghost predicate IsOpenRun(w: World, rules: Rules, trace: seq<Attempt>, dropped: seq<NodeId>, r: OpenResult)
  {
    && NoneAnswered(trace)
    && match r
       case NoStream(error) => IsRunOf(StreamWorld(w), rules, trace, dropped, Failure(error))
       case Streaming(node) =>
         var last := OpenedBy(w, |trace|, dropped, node);
         w.stream(|trace|, node).Opened? && IsRunOf(StreamWorld(w), rules, trace + [last], [], Verdict(last, |trace| + 1))
  }

  /** Here, too, the world leaves no choice: no refusal without a cause. */
  lemma {:induction false} OpenIsDetermined(w: World, rules: Rules, a: seq<Attempt>, d: seq<NodeId>, r: OpenResult, b: seq<Attempt>, e: seq<NodeId>, q: OpenResult)
    requires IsOpenRun(w, rules, a, d, r) && IsOpenRun(w, rules, b, e, q)
    ensures a == b && d == e && r == q
  {
    var (whole, dropped, result) := Whole(w, a, d, r);
    var (other, dropped', result') := Whole(w, b, e, q);
    RunIsDetermined(StreamWorld(w), rules, whole, dropped, result, other, dropped', result');
    WholeShows(w, rules, a, d, r);
    WholeShows(w, rules, b, e, q);
  }

  /** The whole run tells whether it opened a stream, and if so, which. */
  lemma WholeShows(w: World, rules: Rules, trace: seq<Attempt>, dropped: seq<NodeId>, r: OpenResult)
    requires IsOpenRun(w, rules, trace, dropped, r)
    ensures var (whole, _, _) := Whole(w, trace, dropped, r);
      && (NoneAnswered(whole) <==> r.NoStream?)
      && (r.Streaming? ==> Front(whole) == trace && Last(whole).dropped == dropped && Last(whole).node == r.node)
  {
    if r.Streaming? {
      var (whole, _, _) := Whole(w, trace, dropped, r);
      assert whole[|trace|].outcome.Answered?;
    }
  }

  function Whole(w: World, trace: seq<Attempt>, dropped: seq<NodeId>, r: OpenResult): (seq<Attempt>, seq<NodeId>, Result)
  {
    match r
    case NoStream(error) => (trace, dropped, Failure(error))
    case Streaming(node) =>
      var last := OpenedBy(w, |trace|, dropped, node);
      (trace + [last], [], Verdict(last, |trace| + 1))
  }

  /** What an opened stream implies: a node not seen before, granted by the pool, after connect errors only. */
  lemma {:induction false} OpenedMeans(w: World, maxRetries: int, retryStreaming: bool, trace: seq<Attempt>, dropped: seq<NodeId>, node: NodeId)
    requires IsOpenRun(w, StreamRules(maxRetries, retryStreaming), trace, dropped, Streaming(node))
    ensures |trace| < 1 + Max(0, if retryStreaming then maxRetries else 0)
    ensures forall i :: 0 <= i < |trace| ==> trace[i].outcome.Failed? && IsConnectError(trace[i].outcome.error)
    ensures NoRepeats(Touched(trace) + dropped + [node])
    ensures Acquires(w.pool, |trace|, Elements(Touched(trace)), Granted(node), dropped)
    ensures Held(Log(trace) + Drops(dropped)) == Some(None)
  {
    var rules, last := StreamRules(maxRetries, retryStreaming), OpenedBy(w, |trace|, dropped, node);
    var all := trace + [last];
    TouchedSnoc(trace, last);
    assert Touched(all) + [] == Touched(all);
    assert Last(all) == last && !Retries(rules, all[|trace|]);
    assert Front(all) == trace;
    forall i | 0 <= i < |trace|
      ensures trace[i].outcome.Failed? && IsConnectError(trace[i].outcome.error) && !Leaks(trace[i])
    {
      assert Retries(rules, trace[i]);
    }
    FaithfulPrefix(StreamWorld(w), all, |trace|);
    assert all[..|trace|] == trace;
    NoLeakNoSlot(trace);
    HeldDrops(Log(trace), dropped);
  }

  ghost predicate OpenRunning(w: World, rules: Rules, trace: seq<Attempt>, exclude: set<NodeId>, log: seq<Step>)
  {
    NoneAnswered(trace) && Running(StreamWorld(w), rules, trace, exclude, log)
  }

  /** One more attempt that opened no stream: opening goes on, or this attempt decides it. */
  ghost predicate OpenAdvances(w: World, rules: Rules, trace: seq<Attempt>, exclude: set<NodeId>, log: seq<Step>, a: Attempt)
  {
    var all, longer := trace + [a], log + Drops(a.dropped) + Steps(a);
    && longer == Log(all)
    && if Retries(rules, a) && |all| < Budget(rules)
       then OpenRunning(w, rules, all, exclude + Elements(a.dropped) + {a.node}, longer)
       else Verdict(a, |all|).Failure? && IsOpenRun(w, rules, all, [], NoStream(Verdict(a, |all|).error))
  }

  method OpenStream(w: World, maxRetries: int, retryStreaming: bool)
    returns (r: OpenResult, trace: seq<Attempt>, dropped: seq<NodeId>, log: seq<Step>)
    requires Honours(w.pool)
    ensures IsOpenRun(w, StreamRules(maxRetries, retryStreaming), trace, dropped, r)
    ensures log == Log(trace) + Drops(dropped) + OpenSteps(r)
  {
    ghost var rules := StreamRules(maxRetries, retryStreaming);
    trace, log := [], [];
    var attemptsLeft := 1 + Max(0, if retryStreaming then maxRetries else 0);
    var exclude: set<NodeId> := {};
    while true
      invariant attemptsLeft > 0 && attemptsLeft + |trace| == Budget(rules)
      invariant OpenRunning(w, rules, trace, exclude, log)
      decreases attemptsLeft
    {
      attemptsLeft := attemptsLeft - 1;
      var over;
      over, trace, dropped, exclude, log := OpenOnce(w, rules, trace, exclude, log, attemptsLeft);
      if over.Some? {
        return over.value, trace, dropped, log;
      }
    }
  }

  /** One turn of that loop. */
  method OpenOnce(w: World, ghost rules: Rules, before: seq<Attempt>, excluded: set<NodeId>, logged: seq<Step>, attemptsLeft: nat)
    returns (over: Option<OpenResult>, trace: seq<Attempt>, dropped: seq<NodeId>, exclude: set<NodeId>, log: seq<Step>)
    requires Honours(w.pool) && OpenRunning(w, rules, before, excluded, logged)
    requires !MayRepeatAfterStart(rules) && attemptsLeft + |before| + 1 == Budget(rules)
    ensures over.Some? ==> IsOpenRun(w, rules, trace, dropped, over.value)
    ensures over.Some? ==> log == Log(trace) + Drops(dropped) + OpenSteps(over.value)
    ensures over.None? ==> attemptsLeft > 0 && |trace| == |before| + 1 && OpenRunning(w, rules, trace, exclude, log)
  {
    trace, dropped, exclude, log := before, [], excluded, logged;
    var t, opening := TryOpen(w, rules, trace, |trace|, exclude, log);
    if t.NoNode? {
      return Some(NoStream(t.error)), trace, t.dropped, exclude, log + Drops(t.dropped) + OpenSteps(NoStream(t.error));
    }
    var a := t.attempt;
    if opening.Opened? {
      return Some(Streaming(a.node)), trace, a.dropped, exclude, log + Drops(a.dropped) + OpenSteps(Streaming(a.node));
    }
    trace := trace + [a];
    var stop, steps := OpenFailed(rules, opening, a, attemptsLeft, |trace|);
    log := log + Drops(a.dropped) + steps;
    exclude := exclude + Elements(a.dropped) + {a.node};
    assert log + Drops([]) + OpenSteps(NoStream(Uncaught)) == log;
    over := if stop.Some? then Some(NoStream(stop.value)) else None;
  }

  /** An open stream keeps its slot. */
  function OpenSteps(r: OpenResult): seq<Step>
  {
    match r case Streaming(node) => [Taken(node)] case NoStream(_) => []
  }

  /** The error branches of opening, in the order of the code. */
  method OpenFailed(ghost rules: Rules, opening: Opening, a: Attempt, attemptsLeft: nat, ghost attempts: nat)
    returns (stop: Option<Error>, steps: seq<Step>)
    requires !opening.Opened? && a.outcome == OutcomeOf(opening) && !MayRepeatAfterStart(rules)
    ensures stop.None? <==> Retries(rules, a) && attemptsLeft > 0
    ensures stop.Some? ==> Verdict(a, attempts) == Failure(stop.value)
    ensures steps == Steps(a)
  {
    steps := [Taken(a.node)];
    if opening.OpenEscaped? {
      return Some(Uncaught), steps;
    }
    steps := steps + [Returned(a.node)];
    if !a.noted {
      return Some(Uncaught), steps;
    }
    steps := steps + [Observed(a.node, false, 0, 0)];
    if opening.OpenTimedOut? {
      return Some(UpstreamTimeout(Unspecified)), steps;
    }
    stop := if attemptsLeft > 0 && IsConnectError(opening.error) then None else Some(opening.error);
  }

  method TryOpen(w: World, ghost rules: Rules, ghost trace: seq<Attempt>, attempt: nat, exclude: set<NodeId>, ghost log: seq<Step>)
    returns (t: Tried, opening: Opening)
    requires Honours(w.pool) && OpenRunning(w, rules, trace, exclude, log) && attempt == |trace|
    requires !MayRepeatAfterStart(rules)
    ensures t.NoNode? ==> IsOpenRun(w, rules, trace, t.dropped, NoStream(t.error)) && log == Log(trace)
    ensures t.Contacted? ==> opening == w.stream(attempt, t.attempt.node) && t.attempt.outcome == OutcomeOf(opening)
    ensures t.Contacted? && !opening.Opened? ==> OpenAdvances(w, rules, trace, exclude, log, t.attempt)
    ensures t.Contacted? && opening.Opened? ==>
      IsOpenRun(w, rules, trace, t.attempt.dropped, Streaming(t.attempt.node)) && log == Log(trace)
  {
    var got, dropped := Acquire(w.pool, attempt, exclude);
    opening := OpenTimedOut;
    if got.Denied? {
      NoneFound(StreamWorld(w), rules, trace, exclude, log, dropped, got.error);
      return NoNode(got.error, dropped), opening;
    }
    opening := w.stream(attempt, got.node);
    var a := OpenedBy(w, attempt, dropped, got.node);
    if opening.Opened? {
      OpenedContact(w, rules, trace, exclude, log, dropped, got.node);
    } else {
      UnopenedContact(w, rules, trace, exclude, log, dropped, got.node);
    }
    t := Contacted(a);
  }

  lemma OpenedContact(w: World, rules: Rules, trace: seq<Attempt>, exclude: set<NodeId>, log: seq<Step>, dropped: seq<NodeId>, node: NodeId)
    requires OpenRunning(w, rules, trace, exclude, log) && !MayRepeatAfterStart(rules)
    requires Acquires(w.pool, |trace|, exclude, Granted(node), dropped)
    requires Fresh(dropped, exclude) && node !in exclude && node !in dropped
    requires w.stream(|trace|, node).Opened?
    ensures IsOpenRun(w, rules, trace, dropped, Streaming(node))
  {
    var a := OpenedBy(w, |trace|, dropped, node);
    Contact(StreamWorld(w), rules, trace, exclude, log, a);
  }

  lemma UnopenedContact(w: World, rules: Rules, trace: seq<Attempt>, exclude: set<NodeId>, log: seq<Step>, dropped: seq<NodeId>, node: NodeId)
    requires OpenRunning(w, rules, trace, exclude, log) && !MayRepeatAfterStart(rules)
    requires Acquires(w.pool, |trace|, exclude, Granted(node), dropped)
    requires Fresh(dropped, exclude) && node !in exclude && node !in dropped
    requires !w.stream(|trace|, node).Opened?
    ensures OpenAdvances(w, rules, trace, exclude, log, OpenedBy(w, |trace|, dropped, node))
  {
    var a := OpenedBy(w, |trace|, dropped, node);
    Contact(StreamWorld(w), rules, trace, exclude, log, a);
  }

  /** What the client is sent. */
  datatype Item = Bytes(chunk: seq<Byte>) | ErrorEvent(error: Error)

  datatype StreamEnd = Finished | StreamRaised(error: Error) | Disconnected

  /** The chunks the node sends before the stream ends, however it ends. */
  function Arriving(o: Opening): seq<seq<Byte>>
    requires o.Opened?
  {
    if o.ending == Complete || o.cut >= |o.chunks| then o.chunks else o.chunks[..o.cut]
  }

  type ChunkCounter = seq<Byte> -> Option<int>

  /** The chunks before the first one whose tokens cannot be counted; that one is withheld. */
  function Passed(count: ChunkCounter, chunks: seq<seq<Byte>>): seq<seq<Byte>>
  {
    if chunks == [] || count(chunks[0]).None? then [] else [chunks[0]] + Passed(count, chunks[1..])
  }

  function SumOf(count: ChunkCounter, chunks: seq<seq<Byte>>): int
  {
    if chunks == [] then 0
    else SumOf(count, Front(chunks)) + match count(Last(chunks)) case Some(n) => n case None => 0
  }

  function AsItems(chunks: seq<seq<Byte>>): seq<Item>
  {
    if chunks == [] then [] else AsItems(Front(chunks)) + [Bytes(Last(chunks))]
  }

  /** The part of a chosen node's stream the client sees, how the generator ends, and what is observed. */
  ghost predicate Relays(o: Opening, count: ChunkCounter, items: seq<Item>, end: StreamEnd, ok: bool, tokens: int)
    requires o.Opened?
  {
    if o.status >= 400 then
      && items == [] && !ok && tokens == 0
      && end == (match o.ending
        case Complete => StreamRaised(NodeAnswered(o.status))
        case Broken(e) => StreamRaised(e)
        case ClientLeft => Disconnected)
    else
      var passed := Passed(count, Arriving(o));
      && tokens == SumOf(count, passed)
      && if passed != Arriving(o) then items == AsItems(passed) + [ErrorEvent(Uncaught)] && end == Finished && !ok
         else match o.ending
           case Complete => items == AsItems(o.chunks) && end == Finished && ok
           case ClientLeft => items == AsItems(passed) && end == Disconnected && ok
           case Broken(e) =>
             && !ok
             && if passed == [] then items == [] && end == StreamRaised(e)
                else items == AsItems(passed) + [ErrorEvent(e)] && end == Finished
  }

  /** What the client is sent if nobody stops reading. */
  function ItemsOf(o: Opening, count: ChunkCounter): seq<Item>
    requires o.Opened?
  {
    var passed := Passed(count, Arriving(o));
    if o.status >= 400 then []
    else if passed != Arriving(o) then AsItems(passed) + [ErrorEvent(Uncaught)]
    else if o.ending.Broken? && passed != [] then AsItems(passed) + [ErrorEvent(o.ending.error)]
    else AsItems(passed)
  }

  lemma RelayIsDetermined(o: Opening, count: ChunkCounter, items: seq<Item>, end: StreamEnd, ok: bool, tokens: int)
    requires o.Opened? && Relays(o, count, items, end, ok, tokens)
    ensures items == ItemsOf(o, count)
  {
  }

  lemma {:induction false} PassedAll(count: ChunkCounter, chunks: seq<seq<Byte>>)
    requires forall k :: 0 <= k < |chunks| ==> count(chunks[k]).Some?
    ensures Passed(count, chunks) == chunks
  {
    if chunks != [] {
      PassedAll(count, chunks[1..]);
    }
  }

  lemma {:induction false} PassedUntil(count: ChunkCounter, chunks: seq<seq<Byte>>, i: nat)
    requires i < |chunks| && count(chunks[i]).None?
    requires forall k :: 0 <= k < i ==> count(chunks[k]).Some?
    ensures Passed(count, chunks) == chunks[..i]
  {
    if i > 0 {
      PassedUntil(count, chunks[1..], i - 1);
      assert chunks[..i] == [chunks[0]] + chunks[1..][..i - 1];
    }
  }

  method Relay(o: Opening, count: ChunkCounter) returns (items: seq<Item>, end: StreamEnd, ok: bool, tokens: int)
    requires o.Opened?
    ensures Relays(o, count, items, end, ok, tokens)
  {
    items, tokens := [], 0;
    if o.status >= 400 {
      match o.ending {
        case Complete => return items, StreamRaised(NodeAnswered(o.status)), false, 0;
        case Broken(e) => return items, StreamRaised(e), false, 0;
        case ClientLeft => return items, Disconnected, false, 0;
      }
    }
    ghost var arriving := Arriving(o);
    var firstByte, i := false, 0;
    while i < |o.chunks| && (o.ending == Complete || i < o.cut)
      invariant 0 <= i <= |arriving|
      invariant forall k :: 0 <= k < i ==> count(o.chunks[k]).Some?
      invariant items == AsItems(o.chunks[..i]) && tokens == SumOf(count, o.chunks[..i])
      invariant firstByte == (i > 0)
    {
      firstByte := true;
      var counted := count(o.chunks[i]);
      if counted.None? {
        PassedUntil(count, arriving, i);
        assert arriving[..i] == o.chunks[..i];
        return items + [ErrorEvent(Uncaught)], Finished, false, tokens;
      }
      assert Front(o.chunks[..i + 1]) == o.chunks[..i];
      tokens := tokens + counted.value;
      items := items + [Bytes(o.chunks[i])];
      i := i + 1;
    }
    assert o.chunks[..i] == arriving;
    PassedAll(count, arriving);
    match o.ending {
      case Complete => end, ok := Finished, true;
      case ClientLeft => end, ok := Disconnected, true;
      case Broken(e) =>
        ok := false;
        if firstByte {
          items, end := items + [ErrorEvent(e)], Finished;
        } else {
          end := StreamRaised(e);
        }
    }
  }

  /** The closing before the release is interrupted; after an error status the stream is closed already. */
  predicate CloseEscapes(o: Opening)
    requires o.Opened?
  {
    !o.closes && !(o.status >= 400 && o.ending == Complete)
  }

  /** The whole of a streamed request: which node was relayed, if any, what happened, and whether the
      stream could be closed and its slot returned, and the observation came to its end. */
  datatype StreamRun = StreamRun(items: seq<Item>, end: StreamEnd, ok: bool, tokens: int, closed: bool, noted: bool, source: Option<NodeId>, trace: seq<Attempt>, dropped: seq<NodeId>)

  ghost predicate IsStreamRun(w: World, maxRetries: int, retryStreaming: bool, s: StreamRun)
  {
    match s.source
    case None =>
      && s.items == [] && s.end.StreamRaised? && s.closed && s.noted
      && IsOpenRun(w, StreamRules(maxRetries, retryStreaming), s.trace, s.dropped, NoStream(s.end.error))
    case Some(node) =>
      && IsOpenRun(w, StreamRules(maxRetries, retryStreaming), s.trace, s.dropped, Streaming(node))
      && Relays(w.stream(|s.trace|, node), w.countChunk, s.items, s.end, s.ok, s.tokens)
      && s.closed == !CloseEscapes(w.stream(|s.trace|, node)) && s.noted == w.notes(|s.trace|, node)
  }

  /** A relayed stream's slot is taken, the stream closed, the slot returned and the exchange observed,
      once; unless closing or observing is interrupted. */
  function StreamLog(w: World, s: StreamRun): seq<Step>
  {
    Log(s.trace) + Drops(s.dropped) + match s.source
      case None => []
      case Some(node) => StreamSteps(w.stream(|s.trace|, node), node, s)
  }

  function StreamSteps(o: Opening, node: NodeId, s: StreamRun): seq<Step>
  {
    if !s.closed then [Taken(node)]
    else if !s.noted then [Taken(node), Closed(node), Returned(node)]
    else [Taken(node), Closed(node), Returned(node), Observed(node, s.ok, if o.Opened? then o.status else 0, s.tokens)]
  }

  method StreamNdjson(w: World, maxRetries: int, retryStreaming: bool) returns (s: StreamRun, log: seq<Step>)
    requires Honours(w.pool)
    ensures IsStreamRun(w, maxRetries, retryStreaming, s)
    ensures log == StreamLog(w, s)
  {
    var opening, trace, dropped;
    opening, trace, dropped, log := OpenStream(w, maxRetries, retryStreaming);
    if opening.NoStream? {
      return StreamRun([], StreamRaised(opening.error), false, 0, true, true, None, trace, dropped), log;
    }
    s, log := RelayOpened(w, opening.node, trace, dropped, log);
  }

  /** Relays an open stream; whatever happens, closes it, returns its slot and observes the exchange. */
  method RelayOpened(w: World, node: NodeId, trace: seq<Attempt>, dropped: seq<NodeId>, taken: seq<Step>) returns (s: StreamRun, log: seq<Step>)
    requires w.stream(|trace|, node).Opened? && taken == Log(trace) + Drops(dropped) + [Taken(node)]
    ensures s.source == Some(node) && s.trace == trace && s.dropped == dropped
    ensures var o := w.stream(|trace|, node);
      && Relays(o, w.countChunk, s.items, s.end, s.ok, s.tokens)
      && s.closed == !CloseEscapes(o) && s.noted == w.notes(|trace|, node)
    ensures log == StreamLog(w, s)
  {
    var o := w.stream(|trace|, node);
    var items, end, ok, tokens := Relay(o, w.countChunk);
    s := StreamRun(items, end, ok, tokens, !CloseEscapes(o), w.notes(|trace|, node), Some(node), trace, dropped);
    log := taken;
    if s.closed {
      log := log + [Closed(node), Returned(node)];
      if s.noted {
        log := log + [Observed(node, ok, o.status, tokens)];
      }
    }
    assert log == Log(trace) + Drops(dropped) + StreamSteps(o, node, s);
  }

  function ItemBytes(items: seq<Item>): seq<Byte>
  {
    if items == [] then []
    else ItemBytes(Front(items)) + if Last(items).Bytes? then Last(items).chunk else []
  }

  function ErrorEvents(items: seq<Item>): nat
  {
    if items == [] then 0 else ErrorEvents(Front(items)) + if Last(items).ErrorEvent? then 1 else 0
  }

  lemma {:induction false} BytesOfItems(chunks: seq<seq<Byte>>)
    ensures ItemBytes(AsItems(chunks)) == Flatten(chunks) && ErrorEvents(AsItems(chunks)) == 0
    ensures |AsItems(chunks)| == |chunks| && (chunks != [] ==> AsItems(chunks)[0] == Bytes(chunks[0]))
  {
    if chunks != [] {
      BytesOfItems(Front(chunks));
      assert Front(AsItems(chunks)) == AsItems(Front(chunks));
    }
  }

  /** Only the chosen node's bytes, from the first on, and at most one error event, which is last.
      It is also first exactly if the very first chunk that arrives cannot be counted. An exception
      means that nothing was sent. */
  lemma {:induction false} OneNodeStream(o: Opening, count: ChunkCounter, items: seq<Item>, end: StreamEnd, ok: bool, tokens: int)
    requires o.Opened? && Relays(o, count, items, end, ok, tokens)
    ensures ItemBytes(items) <= Flatten(o.chunks)
    ensures ErrorEvents(items) <= 1 && (ErrorEvents(items) == 1 ==> Last(items).ErrorEvent?)
    ensures (items != [] && items[0].ErrorEvent?) <==> (o.status < 400 && Arriving(o) != [] && count(Arriving(o)[0]).None?)
    ensures end.StreamRaised? ==> items == []
    ensures end == Finished && ErrorEvents(items) == 0 ==> ItemBytes(items) == Flatten(o.chunks)
  {
    var passed := Passed(count, Arriving(o));
    PassedIsPrefix(o, count);
    RelayedItems(o, count, items, end, ok, tokens);
    PlainItems(passed);
    if items != [] && items != AsItems(passed) {
      AbortedItems(passed, Last(items));
    }
  }

  /** The three forms of what is yielded. */
  lemma RelayedItems(o: Opening, count: ChunkCounter, items: seq<Item>, end: StreamEnd, ok: bool, tokens: int)
    requires o.Opened? && Relays(o, count, items, end, ok, tokens)
    ensures var passed := Passed(count, Arriving(o));
      if o.status >= 400 then items == []
      else items == AsItems(passed) || (items != [] && Last(items).ErrorEvent? && items == AsItems(passed) + [Last(items)])
    ensures end.StreamRaised? ==> items == []
    ensures var passed := Passed(count, Arriving(o));
      o.status < 400 && passed == [] && Arriving(o) != [] ==> items == [ErrorEvent(Uncaught)]
    ensures o.status < 400 && end == Finished && items == AsItems(Passed(count, Arriving(o))) ==> Passed(count, Arriving(o)) == o.chunks
    ensures o.status >= 400 ==> end != Finished
    ensures Arriving(o) == [] ==> ErrorEvents(items) == 0 && items == []
  {
    var passed := Passed(count, Arriving(o));
    PassedPrefix(count, Arriving(o));
    LongerItems(passed);
    assert [] + [ErrorEvent(Uncaught)] == [ErrorEvent(Uncaught)];
  }

  lemma LongerItems(passed: seq<seq<Byte>>)
    ensures forall e: Item :: AsItems(passed) + [e] != AsItems(passed) && Last(AsItems(passed) + [e]) == e
  {
    forall e: Item
      ensures AsItems(passed) + [e] != AsItems(passed) && Last(AsItems(passed) + [e]) == e
    {
      assert |AsItems(passed) + [e]| == |AsItems(passed)| + 1;
    }
  }

  lemma PlainItems(passed: seq<seq<Byte>>)
    ensures ItemBytes(AsItems(passed)) == Flatten(passed) && ErrorEvents(AsItems(passed)) == 0
    ensures AsItems(passed) != [] <==> passed != []
    ensures AsItems(passed) != [] ==> AsItems(passed)[0].Bytes?
  {
    BytesOfItems(passed);
  }

  lemma AbortedItems(passed: seq<seq<Byte>>, e: Item)
    requires e.ErrorEvent?
    ensures var items := AsItems(passed) + [e];
      && ItemBytes(items) == Flatten(passed) && ErrorEvents(items) == 1
      && (items[0].ErrorEvent? <==> passed == [])
  {
    PlainItems(passed);
    assert Front(AsItems(passed) + [e]) == AsItems(passed);
  }

  lemma {:induction false} PassedPrefix(count: ChunkCounter, chunks: seq<seq<Byte>>)
    ensures Passed(count, chunks) <= chunks
    ensures Passed(count, chunks) == [] <==> chunks == [] || count(chunks[0]).None?
  {
    if chunks != [] && count(chunks[0]).Some? {
      PassedPrefix(count, chunks[1..]);
      assert chunks == [chunks[0]] + chunks[1..];
    }
  }

  lemma {:induction false} PassedCounts(count: ChunkCounter, chunks: seq<seq<Byte>>)
    ensures forall k :: 0 <= k < |Passed(count, chunks)| ==> count(Passed(count, chunks)[k]).Some?
  {
    if chunks != [] && count(chunks[0]).Some? {
      PassedCounts(count, chunks[1..]);
    }
  }

  lemma PassedIsPrefix(o: Opening, count: ChunkCounter)
    requires o.Opened?
    ensures var passed := Passed(count, Arriving(o));
      && Flatten(passed) <= Flatten(o.chunks)
      && (passed == [] <==> Arriving(o) == [] || count(Arriving(o)[0]).None?)
  {
    var passed := Passed(count, Arriving(o));
    PassedPrefix(count, Arriving(o));
    assert passed <= o.chunks;
    assert passed + o.chunks[|passed|..] == o.chunks;
    FlattenAppend(passed, o.chunks[|passed|..]);
  }

  /** The counter is the gateway's, over some JSON decoder. */
  ghost predicate CountsWith(o: Opening, count: ChunkCounter, decode: JsonDecoder, parse: ParseInt)
    requires o.Opened?
  {
    forall k :: 0 <= k < |Arriving(o)| ==> count(Arriving(o)[k]) == StreamTokens(decode, parse, Arriving(o)[k])
  }

  /** An error event comes first exactly if a line of the first chunk is done with a count that is no
      number, or crashes the decoder; then it is all the client gets. */
  lemma {:induction false} ErrorEventFirst(o: Opening, decode: JsonDecoder, parse: ParseInt,
      count: ChunkCounter, items: seq<Item>, end: StreamEnd, ok: bool, tokens: int)
    requires o.Opened? && o.status < 400 && Arriving(o) != [] && CountsWith(o, count, decode, parse)
    requires Relays(o, count, items, end, ok, tokens)
    ensures (items != [] && items[0].ErrorEvent?) <==> SomeLineFails(decode, parse, Lines(Arriving(o)[0]))
    ensures SomeLineFails(decode, parse, Lines(Arriving(o)[0])) ==> items == [ErrorEvent(Uncaught)] && end == Finished && !ok
  {
    ChunkFailsExactly(decode, parse, Arriving(o)[0]);
    OneNodeStream(o, count, items, end, ok, tokens);
    PassedPrefix(count, Arriving(o));
  }

  lemma {:induction false} PassedExactly(count: ChunkCounter, chunks: seq<seq<Byte>>)
    ensures Passed(count, chunks) == chunks <==> forall k :: 0 <= k < |chunks| ==> count(chunks[k]).Some?
  {
    if chunks != [] {
      PassedExactly(count, chunks[1..]);
      if count(chunks[0]).Some? {
        assert chunks == [chunks[0]] + chunks[1..];
      }
    }
  }

  lemma {:induction false} SumOfChunks(count: ChunkCounter, decode: JsonDecoder, parse: ParseInt, chunks: seq<seq<Byte>>)
    requires forall k :: 0 <= k < |chunks| ==> count(chunks[k]) == StreamTokens(decode, parse, chunks[k])
    ensures TokenCuts.ChunkSum(decode, parse, chunks).Some? <==> forall k :: 0 <= k < |chunks| ==> count(chunks[k]).Some?
    ensures TokenCuts.ChunkSum(decode, parse, chunks).Some? ==> TokenCuts.ChunkSum(decode, parse, chunks).value == SumOf(count, chunks)
  {
    if chunks != [] {
      SumOfChunks(count, decode, parse, Front(chunks));
      assert count(Last(chunks)) == StreamTokens(decode, parse, Last(chunks));
      assert forall k :: 0 <= k < |chunks| - 1 ==> Front(chunks)[k] == chunks[k];
    }
  }

  /** If every cut is safe, counting depends on the bytes alone: it aborts the relay exactly if a line of
      the whole stream fails, and otherwise what is observed is the count of the whole stream. */
  lemma {:induction false} SafeCutsRelay(o: Opening, decode: JsonDecoder, parse: ParseInt,
      count: ChunkCounter, items: seq<Item>, end: StreamEnd, ok: bool, tokens: int)
    requires o.Opened? && o.status < 400 && CountsWith(o, count, decode, parse) && TokenCuts.CutsAreSafe(Arriving(o))
    requires Relays(o, count, items, end, ok, tokens)
    ensures Passed(count, Arriving(o)) != Arriving(o) <==> SomeLineFails(decode, parse, Lines(Flatten(Arriving(o))))
    ensures Passed(count, Arriving(o)) == Arriving(o) ==> Some(tokens) == StreamTokens(decode, parse, Flatten(Arriving(o)))
  {
    TokenCuts.SafeCutsAgree(decode, parse, Arriving(o));
    SumOfChunks(count, decode, parse, Arriving(o));
    PassedExactly(count, Arriving(o));
    ChunkFailsExactly(decode, parse, Flatten(Arriving(o)));
  }

  /** What a streamed request holds at its end. */
  function StreamLeftOver(s: StreamRun): Option<NodeId>
  {
    if s.source.None? then LeftOver(s.trace) else if s.closed then None else s.source
  }

  /** The slot of a relayed stream is returned exactly once, whatever ends it; only an exception while
      opening, or a cancellation while closing, can leave one behind. */
  lemma {:induction false} StreamSlotReturned(w: World, maxRetries: int, retryStreaming: bool, s: StreamRun)
    requires IsStreamRun(w, maxRetries, retryStreaming, s)
    ensures Held(StreamLog(w, s)) == Some(StreamLeftOver(s))
    ensures s.source.Some? && w.stream(|s.trace|, s.source.value).closes ==> StreamLeftOver(s) == None
  {
    var before := Log(s.trace) + Drops(s.dropped);
    match s.source {
      case None =>
        SlotsReturned(StreamRules(maxRetries, retryStreaming), s.trace, s.dropped, Failure(s.end.error));
        assert before + [] == before;
      case Some(node) =>
        OpenedMeans(w, maxRetries, retryStreaming, s.trace, s.dropped, node);
        HeldStream(before, w.stream(|s.trace|, node), node, s);
    }
  }

  lemma HeldStream(log: seq<Step>, o: Opening, node: NodeId, s: StreamRun)
    requires Held(log) == Some(None)
    ensures Held(log + StreamSteps(o, node, s)) == Some(if s.closed then None else Some(node))
  {
    if !s.closed {
      HeldSnoc(log, Taken(node));
    } else {
      HeldThree(log, Taken(node), Closed(node), Returned(node));
      if s.noted {
        var last := Observed(node, s.ok, if o.Opened? then o.status else 0, s.tokens);
        HeldSnoc(log + [Taken(node), Closed(node), Returned(node)], last);
        assert log + StreamSteps(o, node, s) == log + [Taken(node), Closed(node), Returned(node)] + [last];
      }
    }
  }
}
