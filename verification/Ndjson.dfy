/** Newline-delimited JSON: the incremental parser against splitting the whole byte stream.
    JSON decoding is an arbitrary function from bytes to an optional record. */
module Ndjson {
  import opened Common
  import opened Sequences

  type Byte = b: int | 0 <= b < 256

  const NEWLINE: Byte := 10

  /** ASCII whitespace, what `bytes.strip` removes. */
  predicate IsSpace(b: Byte)
  {
    b == 32 || 9 <= b <= 13
  }

  function StripLeft(s: seq<Byte>): seq<Byte>
  {
    if s != [] && IsSpace(s[0]) then StripLeft(s[1..]) else s
  }

  function StripRight(s: seq<Byte>): seq<Byte>
  {
    if s != [] && IsSpace(s[|s| - 1]) then StripRight(s[..|s| - 1]) else s
  }

  function Strip(s: seq<Byte>): seq<Byte>
  {
    StripRight(StripLeft(s))
  }

  predicate Blank(s: seq<Byte>)
  {
    forall b :: b in s ==> b == 32 || b == 9 || b == 10 || b == 11 || b == 12 || b == 13
  }

  /** Stripping takes off all white space at both ends and nothing else. */
  lemma {:induction false} StripMeans(s: seq<Byte>) returns (left: seq<Byte>, right: seq<Byte>)
    ensures s == left + Strip(s) + right && Blank(left) && Blank(right)
    ensures Strip(s) != [] ==> !Blank(Strip(s)[..1]) && !Blank(Strip(s)[|Strip(s)| - 1..])
  {
    left := StripsLeft(s);
    right := StripsRight(StripLeft(s));
    if Strip(s) != [] {
      assert Strip(s)[0] == StripLeft(s)[0];
      assert Strip(s)[0] in Strip(s)[..1] && Strip(s)[|Strip(s)| - 1] in Strip(s)[|Strip(s)| - 1..];
    }
  }

  lemma {:induction false} StripsLeft(s: seq<Byte>) returns (left: seq<Byte>)
    ensures s == left + StripLeft(s) && Blank(left)
    ensures StripLeft(s) != [] ==> !IsSpace(StripLeft(s)[0])
  {
    left := [];
    if s != [] && IsSpace(s[0]) {
      var more := StripsLeft(s[1..]);
      left := [s[0]] + more;
    }
  }

  lemma {:induction false} StripsRight(s: seq<Byte>) returns (right: seq<Byte>)
    ensures s == StripRight(s) + right && Blank(right)
    ensures StripRight(s) != [] ==> !IsSpace(StripRight(s)[|StripRight(s)| - 1])
  {
    right := [];
    if s != [] && IsSpace(s[|s| - 1]) {
      var more := StripsRight(s[..|s| - 1]);
      right := more + [s[|s| - 1]];
    }
  }

  /** The index of the first newline, or the length if there is none. */
  function FirstNewline(s: seq<Byte>): (i: nat)
    ensures i <= |s|
  {
    if s == [] || s[0] == NEWLINE then 0 else 1 + FirstNewline(s[1..])
  }

  /** The reference: `s.split(b"\n")`. */
  function Lines(s: seq<Byte>): (lines: seq<seq<Byte>>)
    ensures lines != []
    decreases |s|
  {
    var i := FirstNewline(s);
    if i == |s| then [s] else [s[..i]] + Lines(s[i + 1..])
  }

  /** The lines put back together. */
  function Join(lines: seq<seq<Byte>>): seq<Byte>
    requires lines != []
  {
    if |lines| == 1 then lines[0] else lines[0] + [NEWLINE] + Join(lines[1..])
  }

  /** `Lines` is the split on newlines: no line holds one, and joining gives the text back. */
  lemma {:induction false} LinesSplit(s: seq<Byte>)
    ensures forall line :: line in Lines(s) ==> NEWLINE !in line
    ensures Join(Lines(s)) == s
    decreases |s|
  {
    FirstNewlineFound(s);
    var i := FirstNewline(s);
    if i < |s| {
      LinesSplit(s[i + 1..]);
    } else {
      assert s[..i] == s;
    }
  }

  type Decoder<!E> = seq<Byte> -> Option<E>

  /** What one line contributes: a blank line or one that is not a JSON object nothing. */
  function LineEvents<E>(decode: Decoder<E>, line: seq<Byte>): seq<E>
  {
    var text := Strip(line);
    if text == [] then []
    else match decode(text) case Some(e) => [e] case None => []
  }

  function EventsOf<E>(decode: Decoder<E>, lines: seq<seq<Byte>>): seq<E>
  {
    if lines == [] then [] else EventsOf(decode, Front(lines)) + LineEvents(decode, Last(lines))
  }

  /** The events of a complete byte stream, its unterminated last line included. */
  function Events<E>(decode: Decoder<E>, s: seq<Byte>): seq<E>
  {
    EventsOf(decode, Lines(s))
  }

  function Front<T>(s: seq<T>): seq<T>
    requires s != []
  {
    s[..|s| - 1]
  }

  function Last<T>(s: seq<T>): T
    requires s != []
  {
    s[|s| - 1]
  }

  /** The events of the lines that are complete. */
  function Completed<E>(decode: Decoder<E>, s: seq<Byte>): seq<E>
  {
    EventsOf(decode, Front(Lines(s)))
  }

  /** The unterminated rest behind the last newline. */
  function Unfinished(s: seq<Byte>): seq<Byte>
  {
    Last(Lines(s))
  }

  /** Between two turns of the inner loop nothing is lost, repeated or reordered. */
  ghost predicate Progress<E>(decode: Decoder<E>, joined: seq<Byte>, events: seq<E>, buffer: seq<Byte>)
  {
    events + Completed(decode, buffer) == Completed(decode, joined) && Unfinished(buffer) == Unfinished(joined)
  }

  method ParseLine<E>(decode: Decoder<E>, line: seq<Byte>) returns (events: seq<E>)
    ensures events == LineEvents(decode, line)
  {
    var text := Strip(line);
    if text == [] {
      return [];
    }
    var parsed := decode(text);
    events := if parsed.Some? then [parsed.value] else [];
  }

  /** The inner loop: takes all complete lines off the buffer. */
  method TakeLines<E>(decode: Decoder<E>, joined: seq<Byte>) returns (events: seq<E>, buffer: seq<Byte>)
    ensures events == Completed(decode, joined)
    ensures buffer == Unfinished(joined)
  {
    events, buffer := [], joined;
    var i := FirstNewline(buffer);
    while i < |buffer|
      invariant i == FirstNewline(buffer)
      invariant Progress(decode, joined, events, buffer)
      decreases |buffer|
    {
      var line, rest := buffer[..i], buffer[i + 1..];
      var found := ParseLine(decode, line);
      FirstNewlineFound(buffer);
      TakeFirst(decode, joined, events, buffer, line, rest);
      events, buffer := events + found, rest;
      i := FirstNewline(buffer);
    }
    NoLine(decode, buffer);
  }

  /** After each chunk all events of the lines completed so far are out, and no others. */
  ghost predicate Prompt<E>(decode: Decoder<E>, chunks: seq<seq<Byte>>, events: seq<E>, emitted: seq<nat>)
    requires |emitted| <= |chunks|
  {
    forall j :: 0 <= j < |emitted| ==> IsPromptAt(decode, Flatten(chunks[..j + 1]), events, emitted[j])
  }

  ghost predicate IsPromptAt<E>(decode: Decoder<E>, seen: seq<Byte>, events: seq<E>, count: nat)
  {
    count <= |events| && events[..count] == Completed(decode, seen)
  }

  /** What is out and what is buffered after the first `|emitted|` chunks. */
  ghost predicate UpToDate<E>(decode: Decoder<E>, chunks: seq<seq<Byte>>, events: seq<E>, buffer: seq<Byte>, emitted: seq<nat>)
    requires |emitted| <= |chunks|
  {
    && events == Completed(decode, Flatten(chunks[..|emitted|]))
    && buffer == Unfinished(Flatten(chunks[..|emitted|]))
    && Prompt(decode, chunks, events, emitted)
  }

  /** The parser's events do not depend on how the bytes were cut into chunks, and none is
      delayed: `emitted` counts the events that are out after each chunk. */
  method NdjsonLines<E>(decode: Decoder<E>, chunks: seq<seq<Byte>>) returns (events: seq<E>, ghost emitted: seq<nat>)
    ensures events == Events(decode, Flatten(chunks))
    ensures |emitted| == |chunks| && Prompt(decode, chunks, events, emitted)
  {
    events, emitted := [], [];
    var buffer: seq<Byte> := [];
    assert Flatten(chunks[..0]) == [];
    NoLine(decode, []);
    for n := 0 to |chunks|
      invariant |emitted| == n && UpToDate(decode, chunks, events, buffer, emitted)
    {
      var complete, rest := TakeLines(decode, buffer + chunks[n]);
      ChunkStep(decode, chunks, events, complete, buffer, emitted);
      events, buffer, emitted := events + complete, rest, emitted + [|events + complete|];
    }
    var tail := ParseLine(decode, buffer);
    StreamEnds(decode, chunks, events, tail, buffer, emitted);
    events := events + tail;
  }

  lemma ChunkStep<E>(decode: Decoder<E>, chunks: seq<seq<Byte>>, events: seq<E>, complete: seq<E>, buffer: seq<Byte>, emitted: seq<nat>)
    requires |emitted| < |chunks| && UpToDate(decode, chunks, events, buffer, emitted)
    requires complete == Completed(decode, buffer + chunks[|emitted|])
    ensures UpToDate(decode, chunks, events + complete, Unfinished(buffer + chunks[|emitted|]), emitted + [|events + complete|])
  {
    var n := |emitted|;
    assert chunks[..n + 1] == chunks[..n] + [chunks[n]];
    NextChunk(decode, Flatten(chunks[..n]), chunks[n]);
    PromptGrows(decode, chunks, events, complete, emitted);
    var all := events + complete;
    assert all[..|all|] == all;
    assert IsPromptAt(decode, Flatten(chunks[..n + 1]), all, |all|);
  }

  lemma StreamEnds<E>(decode: Decoder<E>, chunks: seq<seq<Byte>>, events: seq<E>, tail: seq<E>, buffer: seq<Byte>, emitted: seq<nat>)
    requires |emitted| == |chunks| && UpToDate(decode, chunks, events, buffer, emitted)
    requires tail == LineEvents(decode, buffer)
    ensures events + tail == Events(decode, Flatten(chunks))
    ensures Prompt(decode, chunks, events + tail, emitted)
  {
    assert chunks[..|chunks|] == chunks;
    PromptGrows(decode, chunks, events, tail, emitted);
  }

  lemma PromptGrows<E>(decode: Decoder<E>, chunks: seq<seq<Byte>>, events: seq<E>, more: seq<E>, emitted: seq<nat>)
    requires |emitted| <= |chunks| && Prompt(decode, chunks, events, emitted)
    ensures Prompt(decode, chunks, events + more, emitted)
  {
    forall j | 0 <= j < |emitted|
      ensures IsPromptAt(decode, Flatten(chunks[..j + 1]), events + more, emitted[j])
    {
      assert IsPromptAt(decode, Flatten(chunks[..j + 1]), events, emitted[j]);
      assert (events + more)[..emitted[j]] == events[..emitted[j]];
    }
  }

  lemma {:induction false} FirstNewlineBehind(text: seq<Byte>, rest: seq<Byte>)
    requires NEWLINE !in text
    ensures FirstNewline(text + [NEWLINE] + rest) == |text|
  {
    if text != [] {
      assert (text + [NEWLINE] + rest)[1..] == text[1..] + [NEWLINE] + rest;
      FirstNewlineBehind(text[1..], rest);
    }
  }

  lemma {:induction false} FirstNewlineFound(s: seq<Byte>)
    ensures var i := FirstNewline(s);
      NEWLINE !in s[..i] && (i < |s| ==> s == s[..i] + [NEWLINE] + s[i + 1..])
  {
    if s != [] && s[0] != NEWLINE {
      FirstNewlineFound(s[1..]);
      var i := FirstNewline(s[1..]);
      assert s[..i + 1] == [s[0]] + s[1..][..i];
    }
  }

  /** Taking the first complete line off a buffer. */
  lemma TakeFirst<E>(decode: Decoder<E>, joined: seq<Byte>, events: seq<E>, buffer: seq<Byte>, line: seq<Byte>, rest: seq<Byte>)
    requires buffer == line + [NEWLINE] + rest && NEWLINE !in line
    requires Progress(decode, joined, events, buffer)
    ensures Progress(decode, joined, events + LineEvents(decode, line), rest)
  {
    SplitFirst(buffer, line, rest);
    EventsOfCons(decode, line, Lines(rest));
    Regroup(events, LineEvents(decode, line), Completed(decode, rest));
  }

  lemma Regroup<T>(a: seq<T>, b: seq<T>, c: seq<T>)
    ensures a + (b + c) == a + b + c
  {
  }

  lemma SplitFirst(s: seq<Byte>, line: seq<Byte>, rest: seq<Byte>)
    requires s == line + [NEWLINE] + rest && NEWLINE !in line
    ensures Lines(s) == [line] + Lines(rest)
  {
    FirstNewlineBehind(line, rest);
    assert s[..|line|] == line && s[|line| + 1..] == rest;
  }

  lemma EventsOfCons<E>(decode: Decoder<E>, line: seq<Byte>, more: seq<seq<Byte>>)
    requires more != []
    ensures EventsOf(decode, Front([line] + more)) == LineEvents(decode, line) + EventsOf(decode, Front(more))
    ensures Last([line] + more) == Last(more)
  {
    assert Front([line] + more) == [line] + Front(more);
    EventsOfAppend(decode, [line], Front(more));
    EventsOfOne(decode, line);
  }

  lemma EventsOfOne<E>(decode: Decoder<E>, line: seq<Byte>)
    ensures EventsOf(decode, [line]) == LineEvents(decode, line)
  {
    assert Front([line]) == [];
  }

  lemma NoLine<E>(decode: Decoder<E>, s: seq<Byte>)
    requires FirstNewline(s) == |s|
    ensures Completed(decode, s) == [] && Unfinished(s) == s
  {
    assert Lines(s) == [s];
    assert Front([s]) == [];
  }

  lemma {:induction false} EventsOfAppend<E>(decode: Decoder<E>, a: seq<seq<Byte>>, b: seq<seq<Byte>>)
    ensures EventsOf(decode, a + b) == EventsOf(decode, a) + EventsOf(decode, b)
  {
    if b == [] {
      assert a + b == a;
    } else {
      EventsOfAppend(decode, a, Front(b));
      FrontOfAppend(a, b);
    }
  }

  /** Only the last, unterminated line of `a` is continued by `b`. */
  lemma {:induction false} LinesAppend(a: seq<Byte>, b: seq<Byte>)
    ensures Lines(a + b) == Front(Lines(a)) + Lines(Unfinished(a) + b)
    decreases |a|
  {
    var i := FirstNewline(a);
    if i == |a| {
      assert Lines(a) == [a];
      assert Front([a]) == [];
    } else {
      FirstNewlineFound(a);
      LinesAppend(a[i + 1..], b);
      LinesAppendStep(a, b, a[..i], a[i + 1..]);
    }
  }

  lemma {:induction false} LinesAppendStep(a: seq<Byte>, b: seq<Byte>, line: seq<Byte>, rest: seq<Byte>)
    requires a == line + [NEWLINE] + rest && NEWLINE !in line
    requires Lines(rest + b) == Front(Lines(rest)) + Lines(Unfinished(rest) + b)
    ensures Lines(a + b) == Front(Lines(a)) + Lines(Unfinished(a) + b)
  {
    assert a + b == line + [NEWLINE] + (rest + b);
    SplitFirst(a, line, rest);
    SplitFirst(a + b, line, rest + b);
    FrontOfCons(line, Lines(rest));
  }

  lemma UnfinishedHasNoNewline(d: seq<Byte>)
    ensures NEWLINE !in Unfinished(d)
  {
    LinesSplit(d);
    assert Last(Lines(d)) in Lines(d);
  }

  lemma FrontOfAppend<T>(a: seq<T>, b: seq<T>)
    requires b != []
    ensures Front(a + b) == a + Front(b) && Last(a + b) == Last(b)
  {
  }

  lemma FrontOfCons<T>(x: T, more: seq<T>)
    requires more != []
    ensures Front([x] + more) == [x] + Front(more) && Last([x] + more) == Last(more)
  {
  }

  lemma NextChunk<E>(decode: Decoder<E>, seen: seq<Byte>, raw: seq<Byte>)
    ensures Unfinished(seen + raw) == Unfinished(Unfinished(seen) + raw)
    ensures Completed(decode, seen + raw) == Completed(decode, seen) + Completed(decode, Unfinished(seen) + raw)
  {
    var joined := Unfinished(seen) + raw;
    LinesAppend(seen, raw);
    assert Front(Lines(seen + raw)) == Front(Lines(seen)) + Front(Lines(joined));
    EventsOfAppend(decode, Front(Lines(seen)), Front(Lines(joined)));
  }

  // ---------------------------------------------------------------------------
  // Round trip
  // ---------------------------------------------------------------------------

  /** A record on a line of its own, the way the upstream writes it. */
  function Serialize<E>(encode: E -> seq<Byte>, events: seq<E>): seq<Byte>
  {
    if events == [] then [] else encode(events[0]) + [NEWLINE] + Serialize(encode, events[1..])
  }

  /** `text` is one line of JSON for `e`: no newline inside, no surrounding whitespace. */
  ghost predicate IsLineFor<E>(decode: Decoder<E>, text: seq<Byte>, e: E)
  {
    text != [] && NEWLINE !in text && Strip(text) == text && decode(text) == Some(e)
  }

  /** White space around a record changes nothing, and a blank line is no record, whatever decodes it. */
  lemma {:induction false} PaddedLine<E>(decode: Decoder<E>, left: seq<Byte>, text: seq<Byte>, right: seq<Byte>)
    requires Blank(left) && Blank(right) && NEWLINE !in left + text + right
    requires text != [] ==> !Blank(text[..1]) && !Blank(text[|text| - 1..])
    ensures Events(decode, left + text + right) == if text == [] || decode(text).None? then [] else [decode(text).value]
  {
    var line := left + text + right;
    FirstNewlineFound(line);
    NoLine(decode, line);
    EventsOfOne(decode, line);
    StripsBlank(left, text, right);
  }

  lemma {:induction false} StripsBlank(left: seq<Byte>, text: seq<Byte>, right: seq<Byte>)
    requires Blank(left) && Blank(right)
    requires text != [] ==> !Blank(text[..1]) && !Blank(text[|text| - 1..])
    ensures Strip(left + text + right) == text
  {
    StripsFront(left, text + right);
    assert left + text + right == left + (text + right);
    if text == [] {
      StripsFront(right, []);
      assert text + right == right + [];
    } else {
      assert text[0] in text[..1] && !IsSpace(text[0]);
      assert StripLeft(text + right) == text + right;
      StripsBack(text, right);
    }
  }

  lemma {:induction false} StripsFront(left: seq<Byte>, rest: seq<Byte>)
    requires Blank(left)
    ensures StripLeft(left + rest) == StripLeft(rest)
  {
    if left == [] {
      assert left + rest == rest;
    } else {
      assert left[0] in left && (left + rest)[1..] == left[1..] + rest;
      assert forall b :: b in left[1..] ==> b in left;
      StripsFront(left[1..], rest);
    }
  }

  lemma {:induction false} StripsBack(text: seq<Byte>, right: seq<Byte>)
    requires text != [] && !Blank(text[|text| - 1..]) && Blank(right)
    ensures StripRight(text + right) == text
  {
    if right == [] {
      assert text + right == text && text[|text| - 1..] == [text[|text| - 1]];
    } else {
      assert right[|right| - 1] in right && (text + right)[..|text + right| - 1] == text + right[..|right| - 1];
      var front := right[..|right| - 1];
      assert forall b :: b in front ==> b in right;
      StripsBack(text, front);
    }
  }

  /** Records written line by line arrive unchanged. */
  lemma {:induction false} EventsRoundTrip<E>(decode: Decoder<E>, encode: E -> seq<Byte>, events: seq<E>)
    requires forall i :: 0 <= i < |events| ==> IsLineFor(decode, encode(events[i]), events[i])
    ensures Events(decode, Serialize(encode, events)) == events
  {
    if events == [] {
      NoLine(decode, []);
    } else {
      var text, rest := encode(events[0]), Serialize(encode, events[1..]);
      assert IsLineFor(decode, text, events[0]);
      EventsRoundTrip(decode, encode, events[1..]);
      SplitFirst(Serialize(encode, events), text, rest);
      EventsOfAppend(decode, [text], Lines(rest));
      EventsOfOne(decode, text);
    }
  }
}
