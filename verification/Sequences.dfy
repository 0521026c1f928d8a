/** Sequence vocabulary shared by the whole model: an order-preserving filter,
    flattening, counting, and the stable sort Python's `sorted`/`list.sort` provide. */
module Sequences {

  /** The elements of `s` that satisfy `p`, in their original order. */
  function Keep<T>(s: seq<T>, p: T -> bool): seq<T>
  {
    if s == [] then []
    else if p(s[|s| - 1]) then Keep(s[..|s| - 1], p) + [s[|s| - 1]]
    else Keep(s[..|s| - 1], p)
  }

  lemma KeepSnoc<T>(s: seq<T>, x: T, p: T -> bool)
    ensures Keep(s + [x], p) == if p(x) then Keep(s, p) + [x] else Keep(s, p)
  {
    assert (s + [x])[..|s|] == s;
  }

  lemma {:induction false} KeepMembers<T(!new)>(s: seq<T>, p: T -> bool)
    ensures forall x :: x in Keep(s, p) <==> x in s && p(x)
    ensures |Keep(s, p)| <= |s|
  {
    if s != [] {
      KeepMembers(s[..|s| - 1], p);
      assert s == s[..|s| - 1] + [s[|s| - 1]];
    }
  }

  lemma {:induction false} KeepAppend<T>(a: seq<T>, b: seq<T>, p: T -> bool)
    ensures Keep(a + b, p) == Keep(a, p) + Keep(b, p)
  {
    if b == [] {
      assert a + b == a;
    } else {
      assert (a + b)[..|a + b| - 1] == a + b[..|b| - 1];
      KeepAppend(a, b[..|b| - 1], p);
    }
  }

  /** Filters commute. */
  lemma {:induction false} KeepSwap<T>(s: seq<T>, p: T -> bool, q: T -> bool)
    ensures Keep(Keep(s, p), q) == Keep(Keep(s, q), p)
  {
    if s != [] {
      var front, last := s[..|s| - 1], s[|s| - 1];
      KeepSwap(front, p, q);
      KeepSnoc(Keep(front, p), last, q);
      KeepSnoc(Keep(front, q), last, p);
    }
  }

  /** Predicates that agree on the elements keep the same ones. */
  lemma {:induction false} KeepAgrees<T(!new)>(s: seq<T>, p: T -> bool, q: T -> bool)
    requires forall x :: x in s ==> p(x) == q(x)
    ensures Keep(s, p) == Keep(s, q)
  {
    if s != [] {
      KeepAgrees(s[..|s| - 1], p, q);
    }
  }

  /** Concatenation of a sequence of sequences. */
  function Flatten<T>(parts: seq<seq<T>>): seq<T>
  {
    if parts == [] then [] else Flatten(parts[..|parts| - 1]) + parts[|parts| - 1]
  }

  lemma {:induction false} FlattenAppend<T>(a: seq<seq<T>>, b: seq<seq<T>>)
    ensures Flatten(a + b) == Flatten(a) + Flatten(b)
  {
    if b == [] {
      assert a + b == a;
    } else {
      var front, last := b[..|b| - 1], b[|b| - 1];
      FlattenAppend(a, front);
      assert (a + b)[..|a + b| - 1] == a + front && (a + b)[|a + b| - 1] == last;
      assert Flatten(a) + Flatten(front) + last == Flatten(a) + (Flatten(front) + last);
    }
  }

  /** How often `x` occurs in `s`. */
  function Count<T(==)>(s: seq<T>, x: T): nat
  {
    if s == [] then 0 else Count(s[..|s| - 1], x) + (if s[|s| - 1] == x then 1 else 0)
  }

  lemma {:induction false} CountAppend<T>(a: seq<T>, b: seq<T>, x: T)
    ensures Count(a + b, x) == Count(a, x) + Count(b, x)
  {
    if b == [] {
      assert a + b == a;
    } else {
      assert (a + b)[..|a + b| - 1] == a + b[..|b| - 1];
      CountAppend(a, b[..|b| - 1], x);
    }
  }

  /** An item with the key it is sorted by. */
  datatype Keyed<T> = Keyed(key: int, item: T)

  ghost predicate Sorted<T>(s: seq<Keyed<T>>)
  {
    forall i, j :: 0 <= i < j < |s| ==> s[i].key <= s[j].key
  }

  /** Inserts `x` behind every element whose key is not larger: equal keys keep their order. */
  function Insert<T>(s: seq<Keyed<T>>, x: Keyed<T>): seq<Keyed<T>>
  {
    if s == [] || s[|s| - 1].key <= x.key then s + [x]
    else Insert(s[..|s| - 1], x) + [s[|s| - 1]]
  }

  /** Stable sort by key. */
  function Sort<T>(s: seq<Keyed<T>>): seq<Keyed<T>>
  {
    if s == [] then [] else Insert(Sort(s[..|s| - 1]), s[|s| - 1])
  }

  lemma {:induction false} InsertPermutes<T>(s: seq<Keyed<T>>, x: Keyed<T>)
    ensures multiset(Insert(s, x)) == multiset(s) + multiset{x}
  {
    if s != [] && x.key < s[|s| - 1].key {
      InsertPermutes(s[..|s| - 1], x);
      assert s == s[..|s| - 1] + [s[|s| - 1]];
    }
  }

  lemma {:induction false} SortPermutes<T>(s: seq<Keyed<T>>)
    ensures multiset(Sort(s)) == multiset(s)
  {
    if s != [] {
      SortPermutes(s[..|s| - 1]);
      InsertPermutes(Sort(s[..|s| - 1]), s[|s| - 1]);
      assert s == s[..|s| - 1] + [s[|s| - 1]];
    }
  }

  lemma {:induction false} InsertSorted<T(!new)>(s: seq<Keyed<T>>, x: Keyed<T>)
    requires Sorted(s)
    ensures Sorted(Insert(s, x))
    ensures forall y :: y in Insert(s, x) ==> y in s || y == x
  {
    if s != [] && x.key < s[|s| - 1].key {
      var front, last := s[..|s| - 1], s[|s| - 1];
      InsertSorted(front, x);
      assert forall y :: y in Insert(front, x) ==> y.key <= last.key;
    }
  }

  lemma {:induction false} SortSorted<T(!new)>(s: seq<Keyed<T>>)
    ensures Sorted(Sort(s))
  {
    if s != [] {
      SortSorted(s[..|s| - 1]);
      InsertSorted(Sort(s[..|s| - 1]), s[|s| - 1]);
    }
  }

  lemma SortMembers<T(!new)>(s: seq<Keyed<T>>)
    ensures |Sort(s)| == |s|
    ensures forall x :: x in Sort(s) <==> x in s
  {
    SortPermutes(s);
    assert |multiset(Sort(s))| == |multiset(s)|;
    forall x ensures x in Sort(s) <==> x in s {
      assert x in Sort(s) <==> x in multiset(Sort(s));
      assert x in s <==> x in multiset(s);
    }
  }

  lemma {:induction false} KeepInsert<T(!new)>(s: seq<Keyed<T>>, x: Keyed<T>, p: Keyed<T> -> bool)
    requires Sorted(s)
    ensures Keep(Insert(s, x), p) == if p(x) then Insert(Keep(s, p), x) else Keep(s, p)
  {
    if s == [] || s[|s| - 1].key <= x.key {
      KeepSnoc(s, x, p);
      KeepMembers(s, p);
      if Keep(s, p) != [] {
        var y := Keep(s, p)[|Keep(s, p)| - 1];
        assert y in Keep(s, p) && y.key <= x.key;
      }
    } else {
      var front, last := s[..|s| - 1], s[|s| - 1];
      KeepInsert(front, x, p);
      KeepSnoc(Insert(front, x), last, p);
      if p(last) {
        assert (Keep(front, p) + [last])[..|Keep(front, p)|] == Keep(front, p);
      }
    }
  }

  /** Stability: sorting commutes with dropping elements. */
  lemma {:induction false} SortKeep<T(!new)>(s: seq<Keyed<T>>, p: Keyed<T> -> bool)
    ensures Sort(Keep(s, p)) == Keep(Sort(s), p)
  {
    if s != [] {
      var front, last := s[..|s| - 1], s[|s| - 1];
      SortKeep(front, p);
      SortSorted(front);
      KeepInsert(Sort(front), last, p);
      if p(last) {
        assert (Keep(front, p) + [last])[..|Keep(front, p)|] == Keep(front, p);
      }
    }
  }
}
