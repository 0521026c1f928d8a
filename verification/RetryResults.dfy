/** What module Retry computes, said in the terms of nodes, statuses and counters: who gets an answer,
    who gets which error, when another node is tried, and what is observed. */
module RetryResults {
  import opened Common
  import opened Sequences
  import opened Ndjson
  import opened Retry

  /** The request may go on to another node after this attempt: its exchange came to an end, and it was a
      connect error, or a timeout or an answer with status 500 or more where repeating is allowed. */
  predicate Repeatable(rules: Rules, a: Attempt)
  {
    && a.noted
    && match a.outcome
       case Failed(e) => e == Upstream(Connect) || e == UpstreamTimeout(Connect)
       case TimedOut => !rules.sideEffects || rules.retryAfterStart
       case Answered(status, _) => a.tokens.Some? && status >= 500 && (!rules.sideEffects || rules.retryAfterStart)
       case Escaped => false
  }

  lemma RepeatableMeans(rules: Rules, a: Attempt)
    ensures Retries(rules, a) <==> Repeatable(rules, a)
  {
  }

  /** The number of attempts a request may make. */
  function MostAttempts(rules: Rules): nat
  {
    if rules.allowRetry && rules.maxRetries > 0 then 1 + rules.maxRetries else 1
  }

  /** The pool refused: every attempt so far may be followed by another, and one is left. */
  ghost predicate RefusedByPool(rules: Rules, trace: seq<Attempt>)
  {
    |trace| < MostAttempts(rules) && forall i :: 0 <= i < |trace| ==> Repeatable(rules, trace[i])
  }

  /** The answer reached the gateway and is handed to the caller. */
  predicate HandedOver(w: World, n: nat, node: NodeId, status: int, body: seq<Byte>)
  {
    && w.answer(n, node) == Answered(status, body) && w.count(body).Some? && w.notes(n, node)
    && status < 500 && status != 401 && status != 403
  }

  /** The error of an attempt that decides the request. */
  predicate DecidesError(w: World, n: nat, node: NodeId, e: Error)
  {
    if !w.notes(n, node) then e == Uncaught
    else match w.answer(n, node)
      case Failed(cause) => e == cause
      case TimedOut => e == UpstreamTimeout(Unspecified)
      case Answered(status, body) =>
        if w.count(body).None? then e == Uncaught
        else (status >= 500 || status == 401 || status == 403) && e == NodeAnswered(status)
      case Escaped => e == Uncaught
  }

  lemma LastContact(w: World, trace: seq<Attempt>, i: nat)
    requires Faithful(w, trace) && i < |trace|
    ensures var a := trace[i];
      && a.outcome == w.answer(i, a.node) && a.noted == w.notes(i, a.node)
      && a.tokens == if a.outcome.Answered? then w.count(a.outcome.body) else Some(0)
  {
    FaithfulPrefix(w, trace, i);
  }

  /** Every attempt but the last may be followed by another, and there are no more than allowed. */
  lemma {:induction false} AttemptsMean(w: World, rules: Rules, trace: seq<Attempt>, dropped: seq<NodeId>, r: Result)
    requires IsRunOf(w, rules, trace, dropped, r)
    ensures |trace| <= MostAttempts(rules)
    ensures forall i :: 0 <= i < |trace| - 1 ==> Repeatable(rules, trace[i])
    ensures GoesOn(rules, trace) <==> RefusedByPool(rules, trace)
    ensures !RefusedByPool(rules, trace) ==> trace != []
  {
    forall i | 0 <= i < |trace|
      ensures Retries(rules, trace[i]) <==> Repeatable(rules, trace[i])
    {
      RepeatableMeans(rules, trace[i]);
    }
    forall i | 0 <= i < |trace| - 1
      ensures Repeatable(rules, trace[i])
    {
      RepeatableMeans(rules, trace[i]);
      if !GoesOn(rules, trace) {
        assert Retries(rules, Front(trace)[i]);
      }
    }
  }

  /** The caller gets an answer exactly if the last of n attempts brought one that could be counted, was
      observed, and has a status below 500 other than 401 and 403; and then it is that answer. */
  lemma {:induction false} SuccessExactly(w: World, rules: Rules, trace: seq<Attempt>, dropped: seq<NodeId>, r: Result,
      node: NodeId, status: int, body: seq<Byte>, n: nat)
    requires IsRunOf(w, rules, trace, dropped, r)
    ensures r == Success(node, status, body, n) <==>
      n == |trace| && n > 0 && trace[n - 1].node == node && HandedOver(w, n - 1, node, status, body)
  {
    AttemptsMean(w, rules, trace, dropped, r);
    if trace != [] {
      LastContact(w, trace, |trace| - 1);
      RepeatableMeans(rules, trace[|trace| - 1]);
      assert GoesOn(rules, trace) ==> Retries(rules, trace[|trace| - 1]);
    }
  }

  /** Otherwise the caller gets an error: the pool's own if the pool had to be asked again, and that of the
      last attempt if it decided. */
  lemma {:induction false} FailureExactly(w: World, rules: Rules, trace: seq<Attempt>, dropped: seq<NodeId>, r: Result)
    requires IsRunOf(w, rules, trace, dropped, r)
    ensures RefusedByPool(rules, trace) ==>
      r.Failure? && Acquires(w.pool, |trace|, Elements(Touched(trace)), Denied(r.error), dropped)
    ensures !RefusedByPool(rules, trace) ==> dropped == []
    ensures !RefusedByPool(rules, trace) && r.Failure? ==> DecidesError(w, |trace| - 1, trace[|trace| - 1].node, r.error)
  {
    AttemptsMean(w, rules, trace, dropped, r);
    if !RefusedByPool(rules, trace) {
      LastContact(w, trace, |trace| - 1);
    }
  }

  /** What is on record of an exchange: the slot is taken; if nothing escaped before, it is returned; and if
      nothing escaped meanwhile, the exchange is observed, as a success exactly below status 400, with its
      status and its tokens, or as a failure without either. */
  lemma {:induction false} StepsMean(w: World, trace: seq<Attempt>, i: nat)
    requires Faithful(w, trace) && i < |trace|
    ensures var n, steps := trace[i].node, Steps(trace[i]);
      match w.answer(i, n)
      case Escaped => steps == [Taken(n)]
      case Answered(status, body) =>
        if w.count(body).None? then steps == [Taken(n)]
        else if !w.notes(i, n) then steps == [Taken(n), Returned(n)]
        else steps == [Taken(n), Returned(n), Observed(n, status < 400, status, w.count(body).value)]
      case _ => steps == if w.notes(i, n) then [Taken(n), Returned(n), Observed(n, false, 0, 0)] else [Taken(n), Returned(n)]
  {
    LastContact(w, trace, i);
  }

  /** A node is excluded while waiting exactly if it was offered and failed the re-check; a node that passed
      it but had no free slot is not. */
  lemma {:induction false} DroppedExactly(pool: Pool, attempt: nat, exclude: set<NodeId>, round: nat, node: NodeId)
    ensures node in DroppedBy(pool, attempt, exclude, round) <==>
      exists i: nat, free: bool :: i < round && PollAt(pool, attempt, exclude, i) == Picked(node, false, free)
  {
    if round > 0 {
      DroppedExactly(pool, attempt, exclude, round - 1, node);
      var p := PollAt(pool, attempt, exclude, round - 1);
      if p.Picked? && !p.healthy && p.node == node {
        assert PollAt(pool, attempt, exclude, round - 1) == Picked(node, false, p.free);
      }
    }
  }

  // ---------------------------------------------------------------------------
  // Streams
  // ---------------------------------------------------------------------------

  /** The error of an attempt to open a stream that decides the request. */
  predicate DecidesOpening(w: World, n: nat, node: NodeId, e: Error)
  {
    match w.stream(n, node)
    case NotOpened(cause) => e == if w.notes(n, node) then cause else Uncaught
    case OpenTimedOut => e == if w.notes(n, node) then UpstreamTimeout(Unspecified) else Uncaught
    case OpenEscaped => e == Uncaught
    case Opened(_, _, _, _, _) => false
  }

  /** The attempt failed to connect, and may be followed by another if streams may be retried. */
  predicate FailedToConnect(w: World, n: nat, node: NodeId)
  {
    w.notes(n, node) && (w.stream(n, node) == NotOpened(Upstream(Connect)) || w.stream(n, node) == NotOpened(UpstreamTimeout(Connect)))
  }

  function MostOpenings(maxRetries: int, retryStreaming: bool): nat
  {
    if retryStreaming && maxRetries > 0 then 1 + maxRetries else 1
  }

  ghost predicate AllFailedToConnect(w: World, trace: seq<Attempt>)
  {
    forall i :: 0 <= i < |trace| ==> FailedToConnect(w, i, trace[i].node)
  }

  /** Opening fails with the pool's refusal if there is an attempt left and all failed to connect, and with
      the error of the last attempt otherwise; all before it failed to connect. */
  lemma {:induction false} NoStreamMeans(w: World, maxRetries: int, retryStreaming: bool, trace: seq<Attempt>, dropped: seq<NodeId>, e: Error)
    requires IsOpenRun(w, StreamRules(maxRetries, retryStreaming), trace, dropped, NoStream(e))
    ensures |trace| <= MostOpenings(maxRetries, retryStreaming)
    ensures if AllFailedToConnect(w, trace) && |trace| < MostOpenings(maxRetries, retryStreaming)
      then Acquires(w.pool, |trace|, Elements(Touched(trace)), Denied(e), dropped)
      else trace != [] && AllFailedToConnect(w, Front(trace)) && DecidesOpening(w, |trace| - 1, trace[|trace| - 1].node, e)
  {
    var rules := StreamRules(maxRetries, retryStreaming);
    AttemptsMean(StreamWorld(w), rules, trace, dropped, Failure(e));
    FailureExactly(StreamWorld(w), rules, trace, dropped, Failure(e));
    forall i | 0 <= i < |trace|
      ensures Repeatable(rules, trace[i]) <==> FailedToConnect(w, i, trace[i].node)
      ensures !w.stream(i, trace[i].node).Opened?
    {
      LastContact(StreamWorld(w), trace, i);
      assert !trace[i].outcome.Answered?;
    }
  }

  /** A stream is relayed exactly from a node whose stream opened; all attempts before failed to connect. */
  lemma {:induction false} StreamingMeans(w: World, maxRetries: int, retryStreaming: bool, trace: seq<Attempt>, dropped: seq<NodeId>, node: NodeId)
    requires IsOpenRun(w, StreamRules(maxRetries, retryStreaming), trace, dropped, Streaming(node))
    ensures w.stream(|trace|, node).Opened? && AllFailedToConnect(w, trace)
    ensures |trace| < MostOpenings(maxRetries, retryStreaming)
  {
    OpenedMeans(w, maxRetries, retryStreaming, trace, dropped, node);
    var last := OpenedBy(w, |trace|, dropped, node);
    var rules, all := StreamRules(maxRetries, retryStreaming), trace + [last];
    AttemptsMean(StreamWorld(w), rules, all, [], Verdict(last, |trace| + 1));
    forall i | 0 <= i < |trace|
      ensures FailedToConnect(w, i, trace[i].node)
    {
      LastContact(StreamWorld(w), all, i);
      assert all[i] == trace[i] && Repeatable(rules, all[i]);
      assert !trace[i].outcome.Answered?;
    }
  }

  /** Every chunk that arrives can be counted. */
  ghost predicate AllCounted(o: Opening, count: ChunkCounter)
    requires o.Opened?
  {
    forall k :: 0 <= k < |Arriving(o)| ==> count(Arriving(o)[k]).Some?
  }

  /** How a relay ends and what is observed of it: a success exactly if the status is below 400, everything
      that arrived was counted and the node did not break off, so also if the client left; an exception
      exactly for an error status, whose client stayed, or a break before the first byte; and the tokens of
      all chunks that were passed on. */
  lemma {:induction false} RelayMeans(o: Opening, count: ChunkCounter, items: seq<Item>, end: StreamEnd, ok: bool, tokens: int)
    requires o.Opened? && Relays(o, count, items, end, ok, tokens)
    ensures ok <==> o.status < 400 && AllCounted(o, count) && !o.ending.Broken?
    ensures end == Disconnected <==> o.ending == ClientLeft && (o.status >= 400 || AllCounted(o, count))
    ensures end.StreamRaised? <==> (o.status >= 400 && o.ending != ClientLeft) || (o.status < 400 && o.ending.Broken? && Arriving(o) == [])
    ensures end.StreamRaised? ==> end.error == if o.ending.Broken? then o.ending.error else NodeAnswered(o.status)
    ensures o.status >= 400 ==> items == [] && tokens == 0
    ensures o.status < 400 && AllCounted(o, count) ==>
      && tokens == SumOf(count, Arriving(o))
      && items == AsItems(Arriving(o)) + if o.ending.Broken? && Arriving(o) != [] then [ErrorEvent(o.ending.error)] else []
    ensures o.status < 400 && !AllCounted(o, count) ==> items != [] && items[|items| - 1] == ErrorEvent(Uncaught)
  {
    PassedExactly(count, Arriving(o));
    var arriving := AsItems(Arriving(o));
    assert arriving + [] == arriving;
    if o.ending == Complete {
      assert Arriving(o) == o.chunks;
    }
  }

  /** The observation of a relayed stream is that end, with the status of the stream. */
  lemma {:induction false} StreamStepsMean(w: World, maxRetries: int, retryStreaming: bool, s: StreamRun, node: NodeId)
    requires IsStreamRun(w, maxRetries, retryStreaming, s) && s.source == Some(node)
    ensures var o, log := w.stream(|s.trace|, node), StreamLog(w, s);
      var steps := log[|Log(s.trace) + Drops(s.dropped)|..];
      && o.Opened? && Log(s.trace) + Drops(s.dropped) <= log
      && (!o.closes && (o.status < 400 || o.ending != Complete) ==> steps == [Taken(node)])
      && (o.closes || (o.status >= 400 && o.ending == Complete) ==>
            steps == [Taken(node), Closed(node), Returned(node)]
              + if w.notes(|s.trace|, node) then [Observed(node, s.ok, o.status, s.tokens)] else [])
  {
  }
}
