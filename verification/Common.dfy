/** Types used by several modules. */
module Common {

  /** A node identifier. Identifiers of one prefix are fixed-width strings that compare
      like numbers (proved in module Ids), so the model uses the number itself. */
  type NodeId = nat

  datatype Option<+T> = None | Some(value: T)

  /** What the selection algorithms read of a node's runtime state; a latency of 0 is not known yet. */
  datatype Load = Load(id: NodeId, weight: int, active: nat, capacity: int, latency: real, errorRate: real)

  /** The node can take one more request: `active < max(1, max_concurrency)`. */
  predicate HasSlot(n: Load)
  {
    n.active < Max(1, n.capacity)
  }

  function Max(a: int, b: int): int
  {
    if a < b then b else a
  }

  /** Python's `int` of a number: towards zero. */
  function Truncate(x: real): int
  {
    if x >= 0.0 then x.Floor else -((-x).Floor)
  }
}
