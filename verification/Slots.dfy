/** Many requests at once: whatever the interleaving, a node's slot counter is the number of
    requests that hold it; what stays taken at the end is what uncaught exceptions left behind. */
module Slots {
  import opened Common
  import opened Ndjson
  import opened Retry

  /** One step of one of the concurrent requests. */
  datatype Act = Act(request: nat, step: Step)

  /** The steps of one request, in order. */
  function Own(run: seq<Act>, request: nat): seq<Step>
  {
    if run == [] then []
    else if Last(run).request == request then Own(Front(run), request) + [Last(run).step]
    else Own(Front(run), request)
  }

  /** The node a request holds after the run; None also if it broke its own discipline. */
  function Holding(run: seq<Act>, request: nat): Option<NodeId>
  {
    match Held(Own(run, request)) case Some(held) => held case None => None
  }

  /** A node's `active` counter: up on a take, down on a return but never below 0. */
  function Active(run: seq<Act>, node: NodeId): nat
  {
    if run == [] then 0
    else
      match Last(run).step
      case Taken(n) => Active(Front(run), node) + if n == node then 1 else 0
      case Returned(n) => if n == node then Max(0, Active(Front(run), node) - 1) else Active(Front(run), node)
      case _ => Active(Front(run), node)
  }

  /** The requests below `bound` that hold the node. */
  function Holders(run: seq<Act>, node: NodeId, bound: nat): nat
  {
    if bound == 0 then 0
    else Holders(run, node, bound - 1) + if Holding(run, bound - 1) == Some(node) then 1 else 0
  }

  /** Every request keeps to one slot at a time and returns only what it holds, and a slot is taken
      only while one is free. RequestsConserveSlots shows that the first is true of the gateway. */
  ghost predicate Disciplined(run: seq<Act>, capacity: NodeId -> int, bound: nat)
  {
    && (forall a :: a in run ==> a.request < bound)
    && (forall request: nat :: Held(Own(run, request)) != None)
    && forall i :: 0 <= i < |run| ==> TakesFree(run, capacity, i)
  }

  predicate TakesFree(run: seq<Act>, capacity: NodeId -> int, i: nat)
    requires i < |run|
  {
    run[i].step.Taken? ==> Active(run[..i], run[i].step.node) < Max(1, capacity(run[i].step.node))
  }

  lemma OwnFront(run: seq<Act>, request: nat)
    requires run != []
    ensures Held(Own(run, request)) != None ==> Held(Own(Front(run), request)) != None
  {
    if Last(run).request == request {
      HeldSnoc(Own(Front(run), request), Last(run).step);
    }
  }

  lemma FrontDisciplined(run: seq<Act>, capacity: NodeId -> int, bound: nat)
    requires run != [] && Disciplined(run, capacity, bound)
    ensures Disciplined(Front(run), capacity, bound)
  {
    forall request: nat
      ensures Held(Own(Front(run), request)) != None
    {
      OwnFront(run, request);
    }
    forall i | 0 <= i < |Front(run)|
      ensures TakesFree(Front(run), capacity, i)
    {
      assert TakesFree(run, capacity, i);
      assert Front(run)[..i] == run[..i];
    }
  }

  function HeldAfter(held: Option<NodeId>, step: Step): Option<NodeId>
  {
    match step
    case Taken(n) => Some(n)
    case Returned(n) => None
    case _ => held
  }

  /** A step changes only what the request that makes it holds. */
  lemma HoldingAfter(run: seq<Act>, request: nat)
    requires run != [] && Held(Own(run, request)) != None
    ensures Last(run).request != request ==> Holding(run, request) == Holding(Front(run), request)
    ensures Last(run).request == request ==> Holding(run, request) == HeldAfter(Holding(Front(run), request), Last(run).step)
    ensures Last(run).request == request && Last(run).step.Taken? ==> Holding(Front(run), request) == None
    ensures Last(run).request == request && Last(run).step.Returned? ==>
      Holding(Front(run), request) == Some(Last(run).step.node)
  {
    if Last(run).request == request {
      HeldSnoc(Own(Front(run), request), Last(run).step);
    }
  }

  lemma {:induction false} HoldersAfter(run: seq<Act>, node: NodeId, bound: nat)
    requires run != []
    requires forall request: nat :: Held(Own(run, request)) != None
    ensures var r := Last(run).request;
      Holders(run, node, bound) == Holders(Front(run), node, bound)
        + (if r < bound && Holding(run, r) == Some(node) then 1 else 0)
        - (if r < bound && Holding(Front(run), r) == Some(node) then 1 else 0)
  {
    if bound > 0 {
      HoldersAfter(run, node, bound - 1);
      HoldingAfter(run, bound - 1);
    }
  }

  lemma {:induction false} HolderCounts(run: seq<Act>, node: NodeId, bound: nat, request: nat)
    requires request < bound && Holding(run, request) == Some(node)
    ensures Holders(run, node, bound) >= 1
  {
    if request < bound - 1 {
      HolderCounts(run, node, bound - 1, request);
    }
  }

  lemma {:induction false} NoHolders(node: NodeId, bound: nat)
    ensures Holders([], node, bound) == 0
  {
    if bound > 0 {
      NoHolders(node, bound - 1);
    }
  }

  /** Conservation: `active` counts exactly the holders and never exceeds the capacity. */
  lemma {:induction false} SlotsConserved(run: seq<Act>, capacity: NodeId -> int, bound: nat, node: NodeId)
    requires Disciplined(run, capacity, bound)
    ensures Active(run, node) == Holders(run, node, bound)
    ensures Active(run, node) <= Max(1, capacity(node))
  {
    if run == [] {
      NoHolders(node, bound);
    } else {
      var last := Last(run);
      FrontDisciplined(run, capacity, bound);
      SlotsConserved(Front(run), capacity, bound, node);
      HoldersAfter(run, node, bound);
      HoldingAfter(run, last.request);
      assert TakesFree(run, capacity, |run| - 1) && run[..|run| - 1] == Front(run);
      assert last in run;
      if last.step == Returned(node) {
        HolderCounts(Front(run), node, bound, last.request);
      }
    }
  }

  /** The clamp at 0 never takes effect: a returned slot was counted. */
  lemma {:induction false} ClampIsIdle(run: seq<Act>, capacity: NodeId -> int, bound: nat, node: NodeId)
    requires run != [] && Disciplined(run, capacity, bound) && Last(run).step == Returned(node)
    ensures Active(Front(run), node) >= 1 && Active(run, node) == Active(Front(run), node) - 1
  {
    FrontDisciplined(run, capacity, bound);
    SlotsConserved(Front(run), capacity, bound, node);
    HoldingAfter(run, Last(run).request);
    assert Last(run) in run;
    HolderCounts(Front(run), node, bound, Last(run).request);
  }

  // ---------------------------------------------------------------------------
  // The gateway's requests
  // ---------------------------------------------------------------------------

  /** One request from its beginning to its end, plain or streamed, in its own world. */
  datatype Conduct =
    | Plain(world: World, rules: Rules, trace: seq<Attempt>, dropped: seq<NodeId>, result: Result)
    | Streamed(world: World, maxRetries: int, retryStreaming: bool, stream: StreamRun)

  /** What `RequestJson` and `StreamNdjson` were proved to do. */
  ghost predicate IsConduct(c: Conduct)
  {
    match c
    case Plain(w, rules, trace, dropped, result) => IsRunOf(w, rules, trace, dropped, result)
    case Streamed(w, maxRetries, retryStreaming, stream) => IsStreamRun(w, maxRetries, retryStreaming, stream)
  }

  function WholeLog(c: Conduct): seq<Step>
  {
    match c
    case Plain(_, _, trace, dropped, _) => Log(trace) + Drops(dropped)
    case Streamed(w, _, _, stream) => StreamLog(w, stream)
  }

  /** The node whose slot the request keeps for good: that of an attempt that ended in an uncaught
      exception, such as a plain answer whose tokens cannot be counted, or of a stream whose closing
      was interrupted. */
  function Kept(c: Conduct): Option<NodeId>
  {
    match c
    case Plain(_, _, trace, _, _) => LeftOver(trace)
    case Streamed(_, _, _, stream) => StreamLeftOver(stream)
  }

  lemma {:induction false} ConductHolds(c: Conduct)
    requires IsConduct(c)
    ensures Held(WholeLog(c)) == Some(Kept(c))
  {
    match c
    case Plain(_, rules, trace, dropped, result) => SlotsReturned(rules, trace, dropped, result);
    case Streamed(w, maxRetries, retryStreaming, stream) => StreamSlotReturned(w, maxRetries, retryStreaming, stream);
  }

  /** Every request has so far made the first steps of a whole request. */
  ghost predicate UnderWay(run: seq<Act>, conducts: nat -> Conduct)
  {
    forall request: nat :: KeepsTo(run, conducts, request)
  }

  /** A request's own steps are the beginning of its conduct. */
  ghost predicate KeepsTo(run: seq<Act>, conducts: nat -> Conduct, request: nat)
  {
    IsConduct(conducts(request)) && Own(run, request) <= WholeLog(conducts(request))
  }

  ghost predicate SlotsAreFree(run: seq<Act>, capacity: NodeId -> int)
  {
    forall i :: 0 <= i < |run| ==> TakesFree(run, capacity, i)
  }

  lemma {:induction false} RequestsAreDisciplined(run: seq<Act>, conducts: nat -> Conduct, capacity: NodeId -> int, bound: nat)
    requires UnderWay(run, conducts) && SlotsAreFree(run, capacity)
    requires forall a :: a in run ==> a.request < bound
    ensures Disciplined(run, capacity, bound)
  {
    forall request: nat
      ensures Held(Own(run, request)) != None
    {
      var own, whole := Own(run, request), WholeLog(conducts(request));
      assert KeepsTo(run, conducts, request);
      ConductHolds(conducts(request));
      HeldPrefix(whole, |own|);
      assert whole[..|own|] == own;
    }
  }

  /** Conservation for the gateway: under any interleaving of plain and streamed requests, each as far
      as it has come, a node's counter is the number of requests that hold it, within its capacity. */
  lemma {:induction false} RequestsConserveSlots(run: seq<Act>, conducts: nat -> Conduct, capacity: NodeId -> int, bound: nat, node: NodeId)
    requires UnderWay(run, conducts) && SlotsAreFree(run, capacity)
    requires forall a :: a in run ==> a.request < bound
    ensures Active(run, node) == Holders(run, node, bound) <= Max(1, capacity(node))
  {
    RequestsAreDisciplined(run, conducts, capacity, bound);
    SlotsConserved(run, capacity, bound, node);
  }

  /** The requests below `bound` that keep the node's slot for good. */
  function Keepers(conducts: nat -> Conduct, node: NodeId, bound: nat): nat
  {
    if bound == 0 then 0
    else Keepers(conducts, node, bound - 1) + if Kept(conducts(bound - 1)) == Some(node) then 1 else 0
  }

  predicate Ended(run: seq<Act>, conducts: nat -> Conduct, request: nat)
  {
    Own(run, request) == WholeLog(conducts(request))
  }

  /** All requests below `bound` have come to their end. */
  ghost predicate AllEnded(run: seq<Act>, conducts: nat -> Conduct, bound: nat)
  {
    forall request: nat :: request < bound ==> Ended(run, conducts, request)
  }

  ghost predicate HoldWhatTheyKeep(run: seq<Act>, conducts: nat -> Conduct, bound: nat)
  {
    forall request: nat :: request < bound ==> Holding(run, request) == Kept(conducts(request))
  }

  lemma {:induction false} EndedHoldAll(run: seq<Act>, conducts: nat -> Conduct, bound: nat)
    requires UnderWay(run, conducts) && AllEnded(run, conducts, bound)
    ensures HoldWhatTheyKeep(run, conducts, bound)
  {
    forall request: nat | request < bound
      ensures Holding(run, request) == Kept(conducts(request))
    {
      assert KeepsTo(run, conducts, request) && Ended(run, conducts, request);
      EndedHolds(run, conducts(request), request);
    }
  }

  lemma {:induction false} HoldersAreKeepers(run: seq<Act>, conducts: nat -> Conduct, node: NodeId, bound: nat)
    requires HoldWhatTheyKeep(run, conducts, bound)
    ensures Holders(run, node, bound) == Keepers(conducts, node, bound)
  {
    if bound > 0 {
      HoldersAreKeepers(run, conducts, node, bound - 1);
    }
  }

  lemma EndedHolds(run: seq<Act>, c: Conduct, request: nat)
    requires IsConduct(c) && Own(run, request) == WholeLog(c)
    ensures Holding(run, request) == Kept(c)
  {
    ConductHolds(c);
  }

  lemma {:induction false} NoKeepers(conducts: nat -> Conduct, node: NodeId, bound: nat)
    ensures Keepers(conducts, node, bound) == 0 <==> forall request: nat :: request < bound ==> Kept(conducts(request)) != Some(node)
  {
    if bound > 0 {
      NoKeepers(conducts, node, bound - 1);
    }
  }

  /** When all requests are over, a node's counter is the number of those that ended in an uncaught
      exception there; so it is 0 exactly if none did. */
  lemma {:induction false} AllSlotsReturned(run: seq<Act>, conducts: nat -> Conduct, capacity: NodeId -> int, bound: nat, node: NodeId)
    requires UnderWay(run, conducts) && SlotsAreFree(run, capacity) && AllEnded(run, conducts, bound)
    requires forall a :: a in run ==> a.request < bound
    ensures Active(run, node) == Keepers(conducts, node, bound)
    ensures Active(run, node) == 0 <==> forall request: nat :: request < bound ==> Kept(conducts(request)) != Some(node)
  {
    RequestsConserveSlots(run, conducts, capacity, bound, node);
    EndedHoldAll(run, conducts, bound);
    HoldersAreKeepers(run, conducts, node, bound);
    NoKeepers(conducts, node, bound);
  }

  lemma {:induction false} HoldersGrow(run: seq<Act>, node: NodeId, bound: nat, more: nat)
    requires bound <= more
    ensures Holders(run, node, bound) <= Holders(run, node, more)
  {
    if bound < more {
      HoldersGrow(run, node, bound, more - 1);
    }
  }

  /** A number above every request of a run. */
  function Requests(run: seq<Act>): (bound: nat)
    ensures forall a :: a in run ==> a.request < bound
  {
    if run == [] then 0 else Max(Requests(Front(run)), Last(run).request + 1)
  }

  /** Once `max(1, capacity)` requests that are over keep a node's slots, the node is full at every
      later moment, whatever the other requests do: no slot of it can be taken any more. */
  lemma {:induction false} LeaksFillNode(run: seq<Act>, conducts: nat -> Conduct, capacity: NodeId -> int, over: nat, node: NodeId)
    requires UnderWay(run, conducts) && SlotsAreFree(run, capacity) && AllEnded(run, conducts, over)
    requires Keepers(conducts, node, over) >= Max(1, capacity(node))
    ensures Active(run, node) == Max(1, capacity(node))
  {
    var bound := Max(over, Requests(run));
    RequestsConserveSlots(run, conducts, capacity, bound, node);
    EndedHoldAll(run, conducts, over);
    HoldersAreKeepers(run, conducts, node, over);
    HoldersGrow(run, node, over, bound);
  }
}
