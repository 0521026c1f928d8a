/** Sliding windows over a trimmed deque. The gateway keeps events in a deque and pops from
    the left what is strictly older than a cutoff; this module relates such a deque to the
    full history of events. */
module Windows {

  datatype Stamped<+T> = Stamped(at: real, item: T)

  ghost predicate Chronological<T>(h: seq<Stamped<T>>)
  {
    forall i, j :: 0 <= i < j < |h| ==> h[i].at <= h[j].at
  }

  /** Pops from the left what is strictly older than the cutoff. */
  function DropOld<T>(events: seq<Stamped<T>>, cutoff: real): seq<Stamped<T>>
  {
    if events != [] && events[0].at < cutoff then DropOld(events[1..], cutoff) else events
  }

  /** The reference: all events of the history that are not older than the cutoff. */
  function Since<T>(h: seq<Stamped<T>>, cutoff: real): seq<Stamped<T>>
  {
    if h == [] then []
    else if cutoff <= h[|h| - 1].at then Since(h[..|h| - 1], cutoff) + [h[|h| - 1]]
    else Since(h[..|h| - 1], cutoff)
  }

  method Trim<T>(events: seq<Stamped<T>>, cutoff: real) returns (kept: seq<Stamped<T>>)
    ensures kept == DropOld(events, cutoff)
  {
    kept := events;
    while kept != [] && kept[0].at < cutoff
      invariant DropOld(kept, cutoff) == DropOld(events, cutoff)
      decreases |kept|
    {
      kept := kept[1..];
    }
  }

  /** The deque holds whatever a window starting at `from` or later needs of the history. */
  ghost predicate Tracks<T>(events: seq<Stamped<T>>, h: seq<Stamped<T>>, from: real)
  {
    forall c :: from <= c ==> DropOld(events, c) == Since(h, c)
  }

  /** An earlier trim does not change what a later trim leaves. */
  lemma {:induction false} DropOldTwice<T>(events: seq<Stamped<T>>, early: real, late: real)
    requires early <= late
    ensures DropOld(DropOld(events, early), late) == DropOld(events, late)
  {
    if events != [] && events[0].at < early {
      DropOldTwice(events[1..], early, late);
    }
  }

  lemma {:induction false} DropOldSnoc<T>(events: seq<Stamped<T>>, e: Stamped<T>, cutoff: real)
    ensures DropOld(events + [e], cutoff) ==
      if DropOld(events, cutoff) == [] then DropOld([e], cutoff) else DropOld(events, cutoff) + [e]
  {
    if events == [] {
      assert events + [e] == [e];
    } else if events[0].at < cutoff {
      assert (events + [e])[1..] == events[1..] + [e];
      DropOldSnoc(events[1..], e, cutoff);
    }
  }

  lemma {:induction false} SinceWitness<T>(h: seq<Stamped<T>>, cutoff: real)
    ensures Since(h, cutoff) != [] ==> exists i :: 0 <= i < |h| && cutoff <= h[i].at
    ensures |Since(h, cutoff)| <= |h|
  {
    if h != [] {
      SinceWitness(h[..|h| - 1], cutoff);
    }
  }

  /** Appending an event that is not older than the others keeps the deque in step. */
  lemma AppendTracks<T>(events: seq<Stamped<T>>, h: seq<Stamped<T>>, e: Stamped<T>, from: real)
    requires Tracks(events, h, from) && Chronological(h + [e])
    ensures Tracks(events + [e], h + [e], from)
  {
    forall c | from <= c ensures DropOld(events + [e], c) == Since(h + [e], c) {
      DropOldSnoc(events, e, c);
      SinceWitness(h, c);
      assert (h + [e])[..|h|] == h;
      if Since(h, c) != [] {
        var i :| 0 <= i < |h| && c <= h[i].at;
        assert (h + [e])[i].at <= (h + [e])[|h|].at;
      }
    }
  }

  /** So does trimming, for every window that starts no earlier than the cutoff. */
  lemma TrimTracks<T>(events: seq<Stamped<T>>, h: seq<Stamped<T>>, from: real, cutoff: real)
    requires Tracks(events, h, from) && from <= cutoff
    ensures Tracks(DropOld(events, cutoff), h, cutoff)
    ensures DropOld(events, cutoff) == Since(h, cutoff)
  {
    forall c | cutoff <= c ensures DropOld(DropOld(events, cutoff), c) == Since(h, c) {
      DropOldTwice(events, cutoff, c);
    }
  }

  /** In a chronological history a window is a suffix. */
  lemma {:induction false} SinceIsSuffix<T>(h: seq<Stamped<T>>, cutoff: real) returns (k: nat)
    requires Chronological(h)
    ensures k <= |h| && Since(h, cutoff) == h[k..]
    ensures forall i :: 0 <= i < k ==> h[i].at < cutoff
    ensures forall i :: k <= i < |h| ==> cutoff <= h[i].at
  {
    k := 0;
    if h != [] {
      var front, last := h[..|h| - 1], h[|h| - 1];
      assert forall i :: 0 <= i < |front| ==> front[i].at <= last.at;
      k := SinceIsSuffix(front, cutoff);
      if cutoff <= last.at {
        assert h[k..] == front[k..] + [last];
      } else {
        assert k == |front|;
        k := |h|;
      }
    }
  }
}
