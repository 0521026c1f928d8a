/** Consistent hashing with an overload limit: the ring, the lower-bound search, the
    circular scan for a free node, and minimal disruption. The digests of one routing key
    are an arbitrary function; collisions are allowed. */
module HashRing {
  import opened Common
  import opened Sequences

  /** The digest of `key#node#replica` for one fixed routing key. */
  type Digest = (NodeId, nat) -> int

  type Point = Keyed<Load>

  function Replicas(n: Load): nat
  {
    Max(1, n.weight) * 20
  }

  /** The first `replicas` ring points of one node. */
  function Points(digest: Digest, n: Load, replicas: nat): seq<Point>
  {
    if replicas == 0 then []
    else Points(digest, n, replicas - 1) + [Keyed(digest(n.id, replicas - 1), n)]
  }

  /** All points in the order in which they are generated. */
  function Ring(digest: Digest, nodes: seq<Load>): seq<Point>
  {
    if nodes == [] then []
    else
      var last := nodes[|nodes| - 1];
      Ring(digest, nodes[..|nodes| - 1]) + Points(digest, last, Replicas(last))
  }

  function AtOrAfter(target: int): Point -> bool
  {
    (p: Point) => target <= p.key
  }

  function Before(target: int): Point -> bool
  {
    (p: Point) => p.key < target
  }

  /** The points as met when walking once around the ring from `target`. */
  function Clockwise(ring: seq<Point>, target: int): seq<Point>
  {
    Keep(ring, AtOrAfter(target)) + Keep(ring, Before(target))
  }

  /** The node of the first point whose node has a free slot. */
  function FirstFree(points: seq<Point>): Option<Load>
  {
    if points == [] then None
    else
      var earlier := FirstFree(points[..|points| - 1]);
      if earlier.Some? then earlier
      else if HasSlot(points[|points| - 1].item) then Some(points[|points| - 1].item)
      else None
  }

  function Usage(n: Load): real
  {
    n.active as real / Max(1, n.capacity) as real
  }

  /** The first node with the smallest key, Python's `min` with a key. */
  function FirstMinimum(nodes: seq<Load>, key: Load -> real): Load
    requires nodes != []
  {
    var last := nodes[|nodes| - 1];
    if |nodes| == 1 then last
    else
      var best := FirstMinimum(nodes[..|nodes| - 1], key);
      if key(last) < key(best) then last else best
  }

  function LeastLoaded(nodes: seq<Load>): Load
    requires nodes != []
  {
    FirstMinimum(nodes, Usage)
  }

  /** The node a key is routed to. */
  function Choice(digest: Digest, target: int, nodes: seq<Load>): Load
    requires nodes != []
  {
    match FirstFree(Clockwise(Sort(Ring(digest, nodes)), target))
    case Some(n) => n
    case None => LeastLoaded(nodes)
  }

  // ---------------------------------------------------------------------------
  // The algorithm
  // ---------------------------------------------------------------------------

  method BuildRing(digest: Digest, nodes: seq<Load>) returns (ring: seq<Point>)
    ensures ring == Ring(digest, nodes)
  {
    ring := [];
    for i := 0 to |nodes|
      invariant ring == Ring(digest, nodes[..i])
    {
      var node := nodes[i];
      ghost var before := ring;
      for replica := 0 to Replicas(node)
        invariant ring == before + Points(digest, node, replica)
      {
        ring := ring + [Keyed(digest(node.id, replica), node)];
      }
      assert nodes[..i + 1][..i] == nodes[..i];
    }
    assert nodes[..|nodes|] == nodes;
  }

  /** Lower bound of `target` in an ascending list, wrapped to the start. */
  method BisectRing(values: seq<int>, target: int) returns (index: nat)
    requires values != []
    requires forall i, j :: 0 <= i < j < |values| ==> values[i] <= values[j]
    ensures index < |values|
    ensures forall i :: 0 <= i < index ==> values[i] < target
    ensures (forall i :: index <= i < |values| ==> target <= values[i])
         || (index == 0 && forall i :: 0 <= i < |values| ==> values[i] < target)
  {
    var lo, hi := 0, |values|;
    while lo < hi
      invariant 0 <= lo <= hi <= |values|
      invariant forall i :: 0 <= i < lo ==> values[i] < target
      invariant forall i :: hi <= i < |values| ==> target <= values[i]
    {
      var mid := (lo + hi) / 2;
      if values[mid] < target {
        lo := mid + 1;
      } else {
        hi := mid;
      }
    }
    index := lo % |values|;
  }

  /** The circular overload scan, from ring position `index`. */
  method ScanForSlot(ring: seq<Point>, index: nat) returns (found: Option<Load>)
    requires index < |ring|
    ensures found == FirstFree(ring[index..] + ring[..index])
  {
    ghost var walk := ring[index..] + ring[..index];
    for offset := 0 to |ring|
      invariant FirstFree(walk[..offset]) == None
    {
      var node := ring[(index + offset) % |ring|].item;
      RotatedIndex(ring, index, offset);
      assert walk[..offset + 1][..offset] == walk[..offset];
      if HasSlot(node) {
        FirstFreePrefix(walk[..offset + 1], walk[offset + 1..]);
        assert walk == walk[..offset + 1] + walk[offset + 1..];
        return Some(node);
      }
    }
    assert walk[..|ring|] == walk;
    found := None;
  }

  method ConsistentHash(digest: Digest, target: int, nodes: seq<Load>) returns (chosen: Load)
    requires nodes != []
    ensures chosen == Choice(digest, target, nodes)
  {
    var generated := BuildRing(digest, nodes);
    var ring := Sort(generated);
    SortSorted(generated);
    RingNotEmpty(digest, nodes);
    SortMembers(generated);
    var index := BisectRing(Hashes(ring), target);
    WalkIsClockwise(ring, target, index);
    var found := ScanForSlot(ring, index);
    chosen := if found.Some? then found.value else LeastLoaded(nodes);
  }

  function Hashes(ring: seq<Point>): (r: seq<int>)
    ensures |r| == |ring| && forall i :: 0 <= i < |r| ==> r[i] == ring[i].key
  {
    seq(|ring|, i requires 0 <= i < |ring| => ring[i].key)
  }

  lemma {:induction false} PointsLength(digest: Digest, n: Load, replicas: nat)
    ensures |Points(digest, n, replicas)| == replicas
    ensures forall r :: 0 <= r < replicas ==> Points(digest, n, replicas)[r] == Keyed(digest(n.id, r), n)
  {
    if replicas != 0 {
      PointsLength(digest, n, replicas - 1);
    }
  }

  lemma RingNotEmpty(digest: Digest, nodes: seq<Load>)
    requires nodes != []
    ensures Ring(digest, nodes) != []
  {
    PointsLength(digest, nodes[|nodes| - 1], Replicas(nodes[|nodes| - 1]));
  }

  lemma WrapOnce(a: nat, n: nat)
    requires 0 < n && a < 2 * n
    ensures a % n == if a < n then a else a - n
  {
  }

  lemma RotatedIndex(ring: seq<Point>, index: nat, offset: nat)
    requires index < |ring| && offset < |ring|
    ensures ring[(index + offset) % |ring|] == (ring[index..] + ring[..index])[offset]
  {
    WrapOnce(index + offset, |ring|);
  }

  lemma {:induction false} KeepAll<T(!new)>(s: seq<T>, p: T -> bool)
    requires forall x :: x in s ==> p(x)
    ensures Keep(s, p) == s
  {
    if s != [] {
      KeepAll(s[..|s| - 1], p);
    }
  }

  lemma {:induction false} KeepNone<T(!new)>(s: seq<T>, p: T -> bool)
    requires forall x :: x in s ==> !p(x)
    ensures Keep(s, p) == []
  {
    if s != [] {
      KeepNone(s[..|s| - 1], p);
    }
  }

  lemma ClockwiseOfSplit(low: seq<Point>, high: seq<Point>, target: int)
    requires forall i :: 0 <= i < |low| ==> low[i].key < target
    requires forall i :: 0 <= i < |high| ==> target <= high[i].key
    ensures Clockwise(low + high, target) == high + low
  {
    assert Keep(low + high, AtOrAfter(target)) == high by {
      KeepAppend(low, high, AtOrAfter(target));
      KeepNone(low, AtOrAfter(target));
      KeepAll(high, AtOrAfter(target));
      assert [] + high == high;
    }
    assert Keep(low + high, Before(target)) == low by {
      KeepAppend(low, high, Before(target));
      KeepAll(low, Before(target));
      KeepNone(high, Before(target));
      assert low + [] == low;
    }
  }

  /** Rotating the sorted ring to the lower bound is walking clockwise from the target. */
  lemma WalkIsClockwise(ring: seq<Point>, target: int, index: nat)
    requires index < |ring|
    requires forall i :: 0 <= i < index ==> ring[i].key < target
    requires (forall i :: index <= i < |ring| ==> target <= ring[i].key)
          || (index == 0 && forall i :: 0 <= i < |ring| ==> ring[i].key < target)
    ensures ring[index..] + ring[..index] == Clockwise(ring, target)
  {
    if target <= ring[index].key {
      ClockwiseOfSplit(ring[..index], ring[index..], target);
      assert ring == ring[..index] + ring[index..];
    } else {
      ClockwiseOfSplit(ring, [], target);
      assert ring + [] == ring;
      assert ring[0..] == ring && ring[..0] == [];
      assert ring + ring[..0] == [] + ring;
    }
  }

  lemma {:induction false} FirstFreePrefix(a: seq<Point>, b: seq<Point>)
    requires FirstFree(a).Some?
    ensures FirstFree(a + b) == FirstFree(a)
  {
    if b == [] {
      assert a + b == a;
    } else {
      assert (a + b)[..|a + b| - 1] == a + b[..|b| - 1];
      FirstFreePrefix(a, b[..|b| - 1]);
    }
  }

  // ---------------------------------------------------------------------------
  // What the choice means
  // ---------------------------------------------------------------------------

  /** Ring position `a` is met no later than `b` on a clockwise walk from `target`. */
  predicate NoLater(target: int, a: int, b: int)
  {
    if a < target <==> b < target then a <= b else target <= a
  }

  lemma {:induction false} RingMembers(digest: Digest, nodes: seq<Load>)
    ensures forall p :: p in Ring(digest, nodes) <==>
      p.item in nodes && exists r: nat :: r < Replicas(p.item) && p.key == digest(p.item.id, r)
  {
    if nodes != [] {
      var front, last := nodes[..|nodes| - 1], nodes[|nodes| - 1];
      RingMembers(digest, front);
      PointsLength(digest, last, Replicas(last));
      assert nodes == front + [last];
      forall p: Point | p.item == last && exists r: nat :: r < Replicas(last) && p.key == digest(last.id, r)
        ensures p in Points(digest, last, Replicas(last))
      {
        var r: nat :| r < Replicas(last) && p.key == digest(last.id, r);
        assert p == Points(digest, last, Replicas(last))[r];
      }
    }
  }

  function OwnedBy(id: NodeId): Point -> bool
  {
    (p: Point) => p.item.id == id
  }

  /** The points of replicas 0, 1, ..., 20 * max(1, weight) - 1 of a node. */
  function OwnPoints(digest: Digest, n: Load): seq<Point>
  {
    seq(20 * Max(1, n.weight), r requires 0 <= r => Keyed(digest(n.id, r), n))
  }

  lemma {:induction false} PointsAre(digest: Digest, n: Load, id: NodeId)
    ensures Keep(Points(digest, n, Replicas(n)), OwnedBy(id)) == if n.id == id then OwnPoints(digest, n) else []
  {
    var points := Points(digest, n, Replicas(n));
    PointsLength(digest, n, Replicas(n));
    if n.id == id {
      KeepAll(points, OwnedBy(id));
      assert points == OwnPoints(digest, n);
    } else {
      KeepNone(points, OwnedBy(id));
    }
  }

  /** A node owns exactly these points of the ring, each once and in this order. */
  lemma {:induction false} RingPoints(digest: Digest, nodes: seq<Load>, i: nat)
    requires i < |nodes| && forall j, k :: 0 <= j < k < |nodes| ==> nodes[j].id != nodes[k].id
    ensures Keep(Ring(digest, nodes), OwnedBy(nodes[i].id)) == OwnPoints(digest, nodes[i])
  {
    var front, last, id := nodes[..|nodes| - 1], nodes[|nodes| - 1], nodes[i].id;
    KeepAppend(Ring(digest, front), Points(digest, last, Replicas(last)), OwnedBy(id));
    PointsAre(digest, last, id);
    if i < |front| {
      RingPoints(digest, front, i);
      assert front[i] == nodes[i];
      assert OwnPoints(digest, nodes[i]) + [] == OwnPoints(digest, nodes[i]);
    } else {
      ForeignRing(digest, front, id);
      assert [] + OwnPoints(digest, last) == OwnPoints(digest, last);
    }
  }

  lemma {:induction false} ForeignRing(digest: Digest, nodes: seq<Load>, id: NodeId)
    requires forall i :: 0 <= i < |nodes| ==> nodes[i].id != id
    ensures Keep(Ring(digest, nodes), OwnedBy(id)) == []
  {
    RingMembers(digest, nodes);
    KeepNone(Ring(digest, nodes), OwnedBy(id));
  }

  ghost predicate IsFirstFree(points: seq<Point>, i: nat)
  {
    i < |points| && HasSlot(points[i].item) && forall j :: 0 <= j < i ==> !HasSlot(points[j].item)
  }

  /** `FirstFree` in index terms. */
  lemma {:induction false} FirstFreeIndex(points: seq<Point>) returns (i: nat)
    ensures FirstFree(points).None? ==> forall p :: p in points ==> !HasSlot(p.item)
    ensures FirstFree(points).Some? ==> IsFirstFree(points, i) && FirstFree(points) == Some(points[i].item)
  {
    i := 0;
    if points != [] {
      i := FirstFreeIndex(points[..|points| - 1]);
      if FirstFree(points[..|points| - 1]).None? {
        i := |points| - 1;
      }
    }
  }

  lemma ClockwiseOrder(ring: seq<Point>, target: int, i: nat, j: nat)
    requires Sorted(ring) && i <= j < |Clockwise(ring, target)|
    ensures NoLater(target, Clockwise(ring, target)[i].key, Clockwise(ring, target)[j].key)
  {
    KeepSorted(ring, AtOrAfter(target));
    KeepSorted(ring, Before(target));
    KeepMembers(ring, AtOrAfter(target));
    KeepMembers(ring, Before(target));
    var high, low := Keep(ring, AtOrAfter(target)), Keep(ring, Before(target));
    assert i < |high| ==> high[i] in high;
    assert j < |high| ==> high[j] in high;
    assert |high| <= i ==> low[i - |high|] in low;
    assert |high| <= j ==> low[j - |high|] in low;
  }

  lemma {:induction false} KeepSorted(s: seq<Point>, p: Point -> bool)
    requires Sorted(s)
    ensures Sorted(Keep(s, p))
  {
    if s != [] {
      KeepSorted(s[..|s| - 1], p);
      KeepMembers(s[..|s| - 1], p);
      var kept := Keep(s[..|s| - 1], p);
      assert forall q :: q in s[..|s| - 1] ==> q.key <= s[|s| - 1].key;
      forall i | 0 <= i < |kept| ensures kept[i].key <= s[|s| - 1].key {
        assert kept[i] in kept;
      }
    }
  }

  /** The walk meets exactly the points of the eligible nodes. */
  lemma WalkMembers(digest: Digest, target: int, nodes: seq<Load>)
    ensures forall p :: p in Clockwise(Sort(Ring(digest, nodes)), target) <==>
      p.item in nodes && exists r: nat :: r < Replicas(p.item) && p.key == digest(p.item.id, r)
  {
    var ring := Sort(Ring(digest, nodes));
    RingMembers(digest, nodes);
    SortMembers(Ring(digest, nodes));
    KeepMembers(ring, AtOrAfter(target));
    KeepMembers(ring, Before(target));
  }

  /** Ring position `key` is met no later than any point of any free node. */
  ghost predicate MetFirst(digest: Digest, target: int, nodes: seq<Load>, key: int)
  {
    forall n, s: nat :: n in nodes && n.active < Max(1, n.capacity) && s < 20 * Max(1, n.weight) ==> NoLater(target, key, digest(n.id, s))
  }

  /** The chosen node has a free slot exactly when some node has one, and then it owns a
      point that is met no later than any point of any free node. Otherwise no node is
      less used than the chosen one. */
  lemma {:induction false} ChoiceIsNearestFree(digest: Digest, target: int, nodes: seq<Load>)
    requires nodes != []
    ensures var c := Choice(digest, target, nodes);
      && c in nodes
      && (c.active < Max(1, c.capacity) <==> exists n :: n in nodes && n.active < Max(1, n.capacity))
      && (c.active < Max(1, c.capacity) ==> exists r: nat :: r < 20 * Max(1, c.weight) && MetFirst(digest, target, nodes, digest(c.id, r)))
      && (c.active >= Max(1, c.capacity) ==>
            forall n :: n in nodes ==> c.active as real / Max(1, c.capacity) as real <= n.active as real / Max(1, n.capacity) as real)
  {
    var walk := Clockwise(Sort(Ring(digest, nodes)), target);
    WalkMembers(digest, target, nodes);
    var i := FirstFreeIndex(walk);
    FirstMinimumIsLeast(nodes, Usage);
    if FirstFree(walk).None? {
      forall n | n in nodes ensures !HasSlot(n) {
        var p := Keyed(digest(n.id, 0), n);
        assert p in walk;
      }
    } else {
      assert walk[i] in walk;
      var r: nat :| r < Replicas(walk[i].item) && walk[i].key == digest(walk[i].item.id, r);
      FirstFreeIsMetFirst(digest, target, nodes, i);
      assert MetFirst(digest, target, nodes, digest(walk[i].item.id, r));
    }
  }

  lemma FirstFreeIsMetFirst(digest: Digest, target: int, nodes: seq<Load>, i: nat)
    requires IsFirstFree(Clockwise(Sort(Ring(digest, nodes)), target), i)
    ensures MetFirst(digest, target, nodes, Clockwise(Sort(Ring(digest, nodes)), target)[i].key)
  {
    var ring := Sort(Ring(digest, nodes));
    var walk := Clockwise(ring, target);
    WalkMembers(digest, target, nodes);
    SortSorted(Ring(digest, nodes));
    forall n, s: nat | n in nodes && HasSlot(n) && s < Replicas(n)
      ensures NoLater(target, walk[i].key, digest(n.id, s))
    {
      var p := Keyed(digest(n.id, s), n);
      assert p in walk;
      var j :| 0 <= j < |walk| && walk[j] == p;
      ClockwiseOrder(ring, target, i, j);
    }
  }

  lemma {:induction false} FirstMinimumIsLeast(nodes: seq<Load>, key: Load -> real)
    requires nodes != []
    ensures FirstMinimum(nodes, key) in nodes
    ensures forall n :: n in nodes ==> key(FirstMinimum(nodes, key)) <= key(n)
  {
    if 1 < |nodes| {
      FirstMinimumIsLeast(nodes[..|nodes| - 1], key);
      assert nodes == nodes[..|nodes| - 1] + [nodes[|nodes| - 1]];
    }
  }

  // ---------------------------------------------------------------------------
  // Ties
  // ---------------------------------------------------------------------------

  function AtKey(key: int): Point -> bool
  {
    (p: Point) => p.key == key
  }

  lemma {:induction false} SortConstant(s: seq<Point>, key: int)
    requires forall p :: p in s ==> p.key == key
    ensures Sort(s) == s
  {
    if s != [] {
      SortConstant(s[..|s| - 1], key);
    }
  }

  /** Points at one place of the ring are met in the order in which they were generated. */
  lemma {:induction false} SamePlace(points: seq<Point>, target: int, key: int)
    ensures Keep(Clockwise(Sort(points), target), AtKey(key)) == Keep(points, AtKey(key))
  {
    var ring := Sort(points);
    KeepAppend(Keep(ring, AtOrAfter(target)), Keep(ring, Before(target)), AtKey(key));
    SortKeep(points, AtKey(key));
    KeepMembers(points, AtKey(key));
    SortConstant(Keep(points, AtKey(key)), key);
    KeepSwap(ring, AtOrAfter(target), AtKey(key));
    KeepSwap(ring, Before(target), AtKey(key));
    KeepMembers(ring, AtKey(key));
    if target <= key {
      KeepAll(Keep(ring, AtKey(key)), AtOrAfter(target));
      KeepNone(Keep(ring, AtKey(key)), Before(target));
    } else {
      KeepNone(Keep(ring, AtKey(key)), AtOrAfter(target));
      KeepAll(Keep(ring, AtKey(key)), Before(target));
    }
  }

  /** Dropping points other than the first free one does not change which is first. */
  lemma {:induction false} FirstFreeKept(points: seq<Point>, p: Point -> bool, i: nat)
    requires IsFirstFree(points, i) && p(points[i])
    ensures FirstFree(Keep(points, p)) == Some(points[i].item)
  {
    var front, last := points[..|points| - 1], points[|points| - 1];
    KeepSnoc(front, last, p);
    assert points == front + [last];
    if i < |front| {
      FirstFreeKept(front, p, i);
      if p(last) {
        FirstFreePrefix(Keep(front, p), [last]);
      }
    } else {
      KeepMembers(front, p);
      assert forall j :: 0 <= j < |front| ==> front[j] == points[j];
      NoneFree(Keep(front, p));
      assert (Keep(front, p) + [last])[..|Keep(front, p)|] == Keep(front, p);
    }
  }

  lemma {:induction false} NoneFree(points: seq<Point>)
    ensures FirstFree(points) == None <==> forall p :: p in points ==> !HasSlot(p.item)
  {
    if points != [] {
      NoneFree(points[..|points| - 1]);
      assert points == points[..|points| - 1] + [points[|points| - 1]];
    }
  }

  lemma {:induction false} HasPoint(digest: Digest, nodes: seq<Load>, n: Load, s: nat)
    requires n in nodes && s < 20 * Max(1, n.weight)
    ensures Keyed(digest(n.id, s), n) in Ring(digest, nodes)
  {
    RingMembers(digest, nodes);
  }

  /** No free node before place i has a point there. */
  ghost predicate NoneEarlier(digest: Digest, nodes: seq<Load>, i: nat, key: int)
  {
    i <= |nodes| && forall j, s: nat :: 0 <= j < i && nodes[j].active < Max(1, nodes[j].capacity) && s < 20 * Max(1, nodes[j].weight) ==>
      digest(nodes[j].id, s) != key
  }

  /** The first free node among the generated points of one place. */
  lemma {:induction false} FirstAtKey(digest: Digest, nodes: seq<Load>, key: int, c: Load) returns (i: nat)
    requires FirstFree(Keep(Ring(digest, nodes), AtKey(key))) == Some(c)
    ensures i < |nodes| && nodes[i] == c && NoneEarlier(digest, nodes, i, key)
  {
    var front, last := nodes[..|nodes| - 1], nodes[|nodes| - 1];
    var before, points := Keep(Ring(digest, front), AtKey(key)), Keep(Points(digest, last, Replicas(last)), AtKey(key));
    KeepAppend(Ring(digest, front), Points(digest, last, Replicas(last)), AtKey(key));
    if FirstFree(before).Some? {
      FirstFreePrefix(before, points);
      i := FirstAtKey(digest, front, key, c);
      assert forall j :: 0 <= j < |front| ==> front[j] == nodes[j];
    } else {
      i := |front|;
      NoneBefore(digest, front, key);
      assert forall j :: 0 <= j < |front| ==> front[j] == nodes[j];
      var k := FirstFreeIndex(before + points);
      LastOwns(digest, last, before, points, key, k);
    }
  }

  lemma {:induction false} NoneBefore(digest: Digest, nodes: seq<Load>, key: int)
    requires FirstFree(Keep(Ring(digest, nodes), AtKey(key))) == None
    ensures NoneEarlier(digest, nodes, |nodes|, key)
  {
    forall j, s: nat | 0 <= j < |nodes| && nodes[j].active < Max(1, nodes[j].capacity) && s < 20 * Max(1, nodes[j].weight)
      ensures digest(nodes[j].id, s) != key
    {
      NotThere(digest, nodes, nodes[j], s, key);
    }
  }

  lemma {:induction false} NotThere(digest: Digest, nodes: seq<Load>, n: Load, s: nat, key: int)
    requires FirstFree(Keep(Ring(digest, nodes), AtKey(key))) == None
    requires n in nodes && n.active < Max(1, n.capacity) && s < 20 * Max(1, n.weight)
    ensures digest(n.id, s) != key
  {
    HasPoint(digest, nodes, n, s);
    FullPoint(Ring(digest, nodes), Keyed(digest(n.id, s), n), key);
  }

  lemma {:induction false} FullPoint(points: seq<Point>, p: Point, key: int)
    requires FirstFree(Keep(points, AtKey(key))) == None && p in points && HasSlot(p.item)
    ensures p.key != key
  {
    NoneFree(Keep(points, AtKey(key)));
    KeepMembers(points, AtKey(key));
  }

  lemma {:induction false} LastOwns(digest: Digest, last: Load, before: seq<Point>, points: seq<Point>, key: int, k: nat)
    requires points == Keep(Points(digest, last, Replicas(last)), AtKey(key))
    requires FirstFree(before) == None && IsFirstFree(before + points, k)
    ensures (before + points)[k].item == last
  {
    var all := Points(digest, last, Replicas(last));
    PointsLength(digest, last, Replicas(last));
    KeepMembers(all, AtKey(key));
    NoneFree(before);
    assert |before| <= k;
    assert points[k - |before|] in points;
    var r :| 0 <= r < |all| && all[r] == points[k - |before|];
  }

  /** Node i owns a point which no point of a free node is met before, and which no free node before it
      in the list shares. */
  ghost predicate OwnsFirst(digest: Digest, target: int, nodes: seq<Load>, i: nat, r: nat)
  {
    && i < |nodes| && r < 20 * Max(1, nodes[i].weight)
    && MetFirst(digest, target, nodes, digest(nodes[i].id, r)) && NoneEarlier(digest, nodes, i, digest(nodes[i].id, r))
  }

  /** The first of the least used nodes. */
  ghost predicate IsLeastUsed(nodes: seq<Load>, i: nat)
  {
    && i < |nodes|
    && (forall j :: 0 <= j < |nodes| ==> Share(nodes[i].active, nodes[i].capacity) <= Share(nodes[j].active, nodes[j].capacity))
    && (forall j :: 0 <= j < i ==> Share(nodes[i].active, nodes[i].capacity) < Share(nodes[j].active, nodes[j].capacity))
  }

  function Share(active: nat, capacity: int): real
  {
    active as real / (if capacity < 1 then 1 else capacity) as real
  }

  /** The choice is settled, colliding digests and equal loads included: the node owns the nearest point of a
      free node and comes first in the list among the free ones at that point; if none is free it is the
      first of the least used. */
  lemma {:induction false} ChoiceIsSettled(digest: Digest, target: int, nodes: seq<Load>) returns (i: nat, r: nat)
    requires nodes != []
    ensures i < |nodes| && Choice(digest, target, nodes) == nodes[i]
    ensures (exists n :: n in nodes && n.active < Max(1, n.capacity)) ==>
      nodes[i].active < Max(1, nodes[i].capacity) && OwnsFirst(digest, target, nodes, i, r)
    ensures (forall n :: n in nodes ==> n.active >= Max(1, n.capacity)) ==> IsLeastUsed(nodes, i)
  {
    var walk := Clockwise(Sort(Ring(digest, nodes)), target);
    ChoiceIsNearestFree(digest, target, nodes);
    r := 0;
    if FirstFree(walk).None? {
      i := FirstMinimumFirst(nodes, Usage);
      UsageIsShare(nodes, i);
      AllFull(digest, target, nodes);
    } else {
      var w := FirstFreeIndex(walk);
      i, r := FirstOwner(digest, target, nodes, w);
    }
  }

  lemma {:induction false} AllFull(digest: Digest, target: int, nodes: seq<Load>)
    requires FirstFree(Clockwise(Sort(Ring(digest, nodes)), target)) == None
    ensures forall n :: n in nodes ==> n.active >= Max(1, n.capacity)
  {
    forall n | n in nodes
      ensures n.active >= Max(1, n.capacity)
    {
      Met(digest, target, nodes, n);
      NoneFree(Clockwise(Sort(Ring(digest, nodes)), target));
    }
  }

  lemma {:induction false} Met(digest: Digest, target: int, nodes: seq<Load>, n: Load)
    requires n in nodes
    ensures Keyed(digest(n.id, 0), n) in Clockwise(Sort(Ring(digest, nodes)), target)
  {
    WalkMembers(digest, target, nodes);
  }

  lemma {:induction false} FirstOwner(digest: Digest, target: int, nodes: seq<Load>, w: nat) returns (i: nat, r: nat)
    requires IsFirstFree(Clockwise(Sort(Ring(digest, nodes)), target), w)
    ensures i < |nodes| && nodes[i] == Clockwise(Sort(Ring(digest, nodes)), target)[w].item
    ensures nodes[i].active < Max(1, nodes[i].capacity) && OwnsFirst(digest, target, nodes, i, r)
  {
    var walk := Clockwise(Sort(Ring(digest, nodes)), target);
    var key := walk[w].key;
    FirstFreeKept(walk, AtKey(key), w);
    SamePlace(Ring(digest, nodes), target, key);
    i := FirstAtKey(digest, nodes, key, walk[w].item);
    r := ReplicaAt(digest, target, nodes, walk[w]);
    FirstFreeIsMetFirst(digest, target, nodes, w);
  }

  lemma {:induction false} ReplicaAt(digest: Digest, target: int, nodes: seq<Load>, p: Point) returns (r: nat)
    requires p in Clockwise(Sort(Ring(digest, nodes)), target)
    ensures r < 20 * Max(1, p.item.weight) && p.key == digest(p.item.id, r)
  {
    WalkMembers(digest, target, nodes);
    r :| r < Replicas(p.item) && p.key == digest(p.item.id, r);
  }

  lemma {:induction false} UsageIsShare(nodes: seq<Load>, i: nat)
    requires IsFirstMinimum(nodes, Usage, i)
    ensures IsLeastUsed(nodes, i)
  {
    assert forall n :: Usage(n) == Share(n.active, n.capacity);
  }

  ghost predicate IsFirstMinimum(nodes: seq<Load>, key: Load -> real, i: nat)
  {
    && i < |nodes|
    && (forall j :: 0 <= j < |nodes| ==> key(nodes[i]) <= key(nodes[j]))
    && (forall j :: 0 <= j < i ==> key(nodes[i]) < key(nodes[j]))
  }

  lemma {:induction false} FirstMinimumFirst(nodes: seq<Load>, key: Load -> real) returns (i: nat)
    requires nodes != []
    ensures IsFirstMinimum(nodes, key, i) && FirstMinimum(nodes, key) == nodes[i]
  {
    i := 0;
    if 1 < |nodes| {
      var front, last := nodes[..|nodes| - 1], nodes[|nodes| - 1];
      i := FirstMinimumFirst(front, key);
      assert forall j :: 0 <= j < |front| ==> front[j] == nodes[j];
      if key(last) < key(front[i]) {
        i := |front|;
      }
    }
  }

  // ---------------------------------------------------------------------------
  // Minimal disruption
  // ---------------------------------------------------------------------------

  function Other(x: NodeId): Load -> bool
  {
    (n: Load) => n.id != x
  }

  function OtherPoint(x: NodeId): Point -> bool
  {
    (p: Point) => p.item.id != x
  }

  lemma {:induction false} RingWithout(digest: Digest, nodes: seq<Load>, x: NodeId)
    ensures Ring(digest, Keep(nodes, Other(x))) == Keep(Ring(digest, nodes), OtherPoint(x))
  {
    if nodes != [] {
      var front, last := nodes[..|nodes| - 1], nodes[|nodes| - 1];
      var points := Points(digest, last, Replicas(last));
      RingWithout(digest, front, x);
      KeepAppend(Ring(digest, front), points, OtherPoint(x));
      PointsLength(digest, last, Replicas(last));
      if last.id != x {
        KeepAll(points, OtherPoint(x));
        assert (Keep(front, Other(x)) + [last])[..|Keep(front, Other(x))|] == Keep(front, Other(x));
      } else {
        KeepNone(points, OtherPoint(x));
      }
    }
  }

  /** Dropping a node's points from the ring drops them from the walk and changes nothing else. */
  lemma {:induction false} WalkWithout(ring: seq<Point>, target: int, x: NodeId)
    ensures Clockwise(Keep(ring, OtherPoint(x)), target) == Keep(Clockwise(ring, target), OtherPoint(x))
  {
    KeepSwap(ring, OtherPoint(x), AtOrAfter(target));
    KeepSwap(ring, OtherPoint(x), Before(target));
    KeepAppend(Keep(ring, AtOrAfter(target)), Keep(ring, Before(target)), OtherPoint(x));
  }

  lemma {:induction false} FirstFreeWithout(points: seq<Point>, x: NodeId)
    ensures FirstFree(points).None? ==> FirstFree(Keep(points, OtherPoint(x))).None?
    ensures FirstFree(points).Some? && FirstFree(points).value.id != x ==>
      FirstFree(Keep(points, OtherPoint(x))) == FirstFree(points)
  {
    if points != [] {
      var front, last := points[..|points| - 1], points[|points| - 1];
      FirstFreeWithout(front, x);
      if last.item.id != x {
        assert (Keep(front, OtherPoint(x)) + [last])[..|Keep(front, OtherPoint(x))|] == Keep(front, OtherPoint(x));
      }
    }
  }

  lemma {:induction false} FirstMinimumWithout(nodes: seq<Load>, key: Load -> real, x: NodeId)
    requires nodes != [] && FirstMinimum(nodes, key).id != x
    ensures Keep(nodes, Other(x)) != []
    ensures FirstMinimum(Keep(nodes, Other(x)), key) == FirstMinimum(nodes, key)
  {
    var front, last := nodes[..|nodes| - 1], nodes[|nodes| - 1];
    var kept := Keep(front, Other(x));
    assert (kept + [last])[..|kept|] == kept;
    if 1 < |nodes| {
      if FirstMinimum(front, key).id != x {
        FirstMinimumWithout(front, key, x);
      } else if kept != [] {
        FirstMinimumIsLeast(front, key);
        FirstMinimumIsLeast(kept, key);
        KeepMembers(front, Other(x));
        assert key(last) < key(FirstMinimum(front, key)) <= key(FirstMinimum(kept, key));
      }
    }
  }

  /** Minimal disruption: removing a node that was not chosen leaves the choice unchanged.
      Read from right to left: adding a node can only move the key to that node. */
  lemma {:induction false} MinimalDisruption(digest: Digest, target: int, nodes: seq<Load>, x: NodeId)
    requires nodes != [] && Choice(digest, target, nodes).id != x
    ensures Keep(nodes, Other(x)) != []
    ensures Choice(digest, target, Keep(nodes, Other(x))) == Choice(digest, target, nodes)
  {
    var ring := Sort(Ring(digest, nodes));
    var walk := Clockwise(ring, target);
    RingWithout(digest, nodes, x);
    SortKeep(Ring(digest, nodes), OtherPoint(x));
    WalkWithout(ring, target, x);
    FirstFreeWithout(walk, x);
    ChoiceIsNearestFree(digest, target, nodes);
    KeepMembers(nodes, Other(x));
    assert Choice(digest, target, nodes) in Keep(nodes, Other(x));
    if FirstFree(walk).None? {
      FirstMinimumWithout(nodes, Usage, x);
    }
  }
}
