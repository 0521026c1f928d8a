/** A streamed chat reply as the gateway serves it: the relayed stream of one node, translated into
    server-sent events. An aborted stream is announced by a line of JSON of the gateway's own. */
module Gateway {
  import opened Common
  import opened Sequences
  import opened Ndjson
  import opened Tokens
  import opened ChatStream
  import opened StreamEnds
  import R = Retry

  /** The bytes of an item; `abort` is the line that stands for an error event. */
  function BytesOf(abort: seq<Byte>, item: R.Item): seq<Byte>
  {
    match item
    case Bytes(chunk) => chunk
    case ErrorEvent(_) => abort + [NEWLINE]
  }

  function ChunksOf(abort: seq<Byte>, items: seq<R.Item>): seq<seq<Byte>>
  {
    if items == [] then [] else ChunksOf(abort, Front(items)) + [BytesOf(abort, Last(items))]
  }

  /** What the gateway translates: everything the relay yields. */
  function Input(abort: seq<Byte>, items: seq<R.Item>): seq<Byte>
  {
    Flatten(ChunksOf(abort, items))
  }

  // ---------------------------------------------------------------------------
  // Where the translator stops reading
  // ---------------------------------------------------------------------------

  /** What the translation of a reply depends on. */
  datatype Job = Job(decode: Decoder<Event>, json: Serializer, parse: ParseInt, head: Head, includeUsage: bool, abort: seq<Byte>)

  function FramesOf(job: Job, input: seq<Byte>): seq<Frame>
  {
    ChatFrames(job.head, job.parse, job.includeUsage, Events(job.decode, input))
  }

  /** Among the complete lines of `input` is an error record, or a record whose frames cannot all be sent. */
  predicate HasStopped(job: Job, input: seq<Byte>)
  {
    var events := Completed(job.decode, input);
    || FirstError(events).Some?
    || !AllSendable(job.json, [Opening(job.head)] + TranslateAll(job.head, job.parse, events))
  }

  function Stops(job: Job): seq<Byte> -> bool
  {
    (input: seq<Byte>) => HasStopped(job, input)
  }

  /** That is: the opening chunk cannot be sent, or a complete line is an error record or one that cannot be handled
      and encoded. */
  lemma {:induction false} StopsExactly(job: Job, input: seq<Byte>)
    requires IsUtf8(job.json)
    ensures HasStopped(job, input) <==>
      || !Encodable(job.head.model)
      || exists e :: e in Completed(job.decode, input) && ((e.readable && e.error != []) || !Passes(job.parse, e))
  {
    var events := Completed(job.decode, input);
    SomeError(events);
    OpeningSendable(job.json, job.head);
    SendableAppend(job.json, [Opening(job.head)], TranslateAll(job.head, job.parse, events));
    assert Opening(job.head) in [Opening(job.head)];
    if Encodable(job.head.model) {
      AllPassExactly(job.json, job.head, job.parse, events);
    }
  }

  lemma {:induction false} SomeError(events: seq<Event>)
    ensures FirstError(events).Some? <==> exists e :: e in events && e.readable && e.error != []
  {
    if events != [] {
      SomeError(events[1..]);
      assert events == [events[0]] + events[1..];
    }
  }

  /** The number of chunks after which a reader has stopped and reads no more. */
  function StopAt(stops: seq<Byte> -> bool, chunks: seq<seq<Byte>>): (stop: Option<nat>)
    ensures stop.Some? ==> 0 < stop.value <= |chunks|
  {
    if chunks == [] then None
    else
      var earlier := StopAt(stops, Front(chunks));
      if earlier.Some? then earlier else if stops(Flatten(chunks)) then Some(|chunks|) else None
  }

  /** The first moment at which it has. */
  lemma {:induction false} StopsFirst(stops: seq<Byte> -> bool, chunks: seq<seq<Byte>>)
    ensures var stop := StopAt(stops, chunks);
      && (stop.Some? ==> stops(Flatten(chunks[..stop.value])))
      && forall k :: 0 < k <= |chunks| && (stop.None? || k < stop.value) ==> !stops(Flatten(chunks[..k]))
  {
    if chunks != [] {
      var front := Front(chunks);
      StopsFirst(stops, front);
      assert chunks[..|chunks|] == chunks;
      assert forall k :: 0 < k <= |front| ==> front[..k] == chunks[..k];
    }
  }

  /** The chunks the translator reads of those that could be relayed. */
  function ReadOf(job: Job, count: R.ChunkCounter, o: R.Opening): seq<seq<Byte>>
    requires o.Opened?
  {
    var passed := R.Passed(count, R.Arriving(o));
    match StopAt(Stops(job), passed) case Some(n) => passed[..n] case None => passed
  }

  /** The translator stops reading this stream before the relay comes to its end. */
  predicate StopsReading(job: Job, count: R.ChunkCounter, o: R.Opening)
  {
    o.Opened? && o.status < 400 && StopAt(Stops(job), R.Passed(count, R.Arriving(o))).Some?
  }

  /** A relayed stream as its reader lets it run: abandoned where the translator stops. */
  function CutShort(job: Job, count: R.ChunkCounter, o: R.Opening): R.Opening
  {
    if StopsReading(job, count, o) then o.(cut := |ReadOf(job, count, o)|, ending := R.ClientLeft) else o
  }

  /** The world as the relay meets it behind the translator. */
  function ReadBy(job: Job, w: R.World): R.World
  {
    w.(stream := (attempt: nat, node: NodeId) => CutShort(job, w.countChunk, w.stream(attempt, node)))
  }

  /** Once stopped, the translation does not depend on what follows. */
  lemma {:induction false} StopFixes(job: Job, input: seq<Byte>, rest: seq<Byte>)
    requires HasStopped(job, input)
    ensures Transmission(job.json, FramesOf(job, input + rest)) == Transmission(job.json, FramesOf(job, input))
    ensures AllSendable(job.json, FramesOf(job, input + rest)) == AllSendable(job.json, FramesOf(job, input))
  {
    var events := Completed(job.decode, input);
    NextChunk(job.decode, input, rest);
    WholeStream(job.decode, input);
    WholeStream(job.decode, input + rest);
    var tail := LineEvents(job.decode, Unfinished(input));
    var more := Completed(job.decode, Unfinished(input) + rest) + LineEvents(job.decode, Unfinished(input + rest));
    assert Events(job.decode, input + rest) == events + more;
    StopFrames(job, events, tail);
    StopFrames(job, events, more);
  }

  lemma WholeStream(decode: Decoder<Event>, s: seq<Byte>)
    ensures Events(decode, s) == Completed(decode, s) + LineEvents(decode, Unfinished(s))
  {
  }

  /** The frames of the events that stop the translator come first, and either end the stream or hold
      the one that cannot be sent. */
  lemma {:induction false} StopFrames(job: Job, events: seq<Event>, more: seq<Event>)
    requires FirstError(events).Some?
      || !AllSendable(job.json, [Opening(job.head)] + TranslateAll(job.head, job.parse, events))
    ensures var frames, longer := ChatFrames(job.head, job.parse, job.includeUsage, events),
        ChatFrames(job.head, job.parse, job.includeUsage, events + more);
      && Transmission(job.json, longer) == Transmission(job.json, frames)
      && (AllSendable(job.json, longer) == AllSendable(job.json, frames))
  {
    var frames, longer := ChatFrames(job.head, job.parse, job.includeUsage, events),
      ChatFrames(job.head, job.parse, job.includeUsage, events + more);
    if FirstError(events).Some? {
      ErrorStays(events, more);
      assert longer == frames;
    } else {
      NoErrorMeans(events);
      assert (events + more)[..|events|] == events && events[..|events|] == events;
      ChatPrefix(job.head, job.parse, job.includeUsage, events, |events|);
      ChatPrefix(job.head, job.parse, job.includeUsage, events + more, |events|);
      var sent := [Opening(job.head)] + TranslateAll(job.head, job.parse, events);
      UntilFailsNext(job.json, sent);
      UntilSendable(job.json, sent);
      var before := Until(job.json, sent);
      UntilStops(job.json, before, sent[|before|], frames);
      UntilStops(job.json, before, sent[|before|], longer);
    }
  }

  lemma {:induction false} ErrorStays(events: seq<Event>, more: seq<Event>)
    requires FirstError(events).Some?
    ensures FirstError(events + more) == FirstError(events) && BeforeError(events + more) == BeforeError(events)
  {
    assert (events + more)[0] == events[0];
    if !IsError(events[0]) {
      assert (events + more)[1..] == events[1..] + more;
      ErrorStays(events[1..], more);
    }
  }

  lemma {:induction false} NoErrorMeans(events: seq<Event>)
    requires FirstError(events).None?
    ensures NoErrorIn(events)
  {
    if events != [] {
      NoErrorMeans(events[1..]);
      assert events == [events[0]] + events[1..];
    }
  }

  // ---------------------------------------------------------------------------
  // A streamed chat request
  // ---------------------------------------------------------------------------

  /** The relay of a chat request, if it was started at all. */
  datatype Relayed = NotStarted | Started(stream: R.StreamRun)

  /** The stream that was opened, as the node offers it. */
  function Source(w: R.World, s: R.StreamRun): R.Opening
  {
    match s.source case Some(node) => w.stream(|s.trace|, node) case None => R.OpenTimedOut
  }

  /** The relay has ended by itself, or the translator has stopped it; the client was there to the end. */
  ghost predicate ReadOut(job: Job, w: R.World, s: R.StreamRun)
  {
    Source(w, s).Opened? && ((s.end.Finished? && s.closed && s.noted) || StopsReading(job, w.countChunk, Source(w, s)))
  }

  /** Everything the relay would yield if it were read to its end. */
  function FullInput(job: Job, count: R.ChunkCounter, o: R.Opening): seq<Byte>
    requires o.Opened?
  {
    Input(job.abort, R.ItemsOf(o, count))
  }

  /** The whole way of a streamed chat request. If the opening chunk cannot be sent, the relay is not
      started and takes no slot. If the relay raises, the opening chunk is out and nothing follows.
      If the client has left, nobody reads what is sent. Otherwise the client is sent the translation of
      everything the relay would yield, although the relay is abandoned where the translator stops. */
  method Chat(w: R.World, maxRetries: int, retryStreaming: bool, job: Job)
    returns (out: seq<seq<Byte>>, raised: bool, relayed: Relayed, log: seq<R.Step>)
    requires R.Honours(w.pool)
    ensures relayed.NotStarted? <==> !Sendable(job.json, Opening(job.head))
    ensures relayed.NotStarted? ==> out == [] && raised && log == []
    ensures relayed.Started? ==> (
      R.IsStreamRun(ReadBy(job, w), maxRetries, retryStreaming, relayed.stream) && log == R.StreamLog(ReadBy(job, w), relayed.stream))
    ensures relayed.Started? && relayed.stream.end.StreamRaised? ==> raised && out == [Sse(job.json, Opening(job.head))]
    ensures relayed.Started? && ReadOut(job, w, relayed.stream) ==>
      Sent(job.json, FramesOf(job, FullInput(job, w.countChunk, Source(w, relayed.stream))), out, raised)
  {
    if Payload(job.json, Opening(job.head)).None? {
      return [], true, NotStarted, [];
    }
    var s;
    s, log := R.StreamNdjson(ReadBy(job, w), maxRetries, retryStreaming);
    relayed := Started(s);
    if s.end.StreamRaised? {
      out, raised := [Sse(job.json, Opening(job.head))], true;
    } else {
      out, raised := ToChatSse(job.decode, job.json, job.parse, job.head, job.includeUsage, ChunksOf(job.abort, s.items));
    }
    ReadOutMeans(job, w, maxRetries, retryStreaming, s);
  }

  lemma {:induction false} ReadOutMeans(job: Job, w: R.World, maxRetries: int, retryStreaming: bool, s: R.StreamRun)
    requires R.IsStreamRun(ReadBy(job, w), maxRetries, retryStreaming, s)
    ensures ReadOut(job, w, s) ==> !s.end.StreamRaised?
    ensures ReadOut(job, w, s) ==> SameTransmission(job, FullInput(job, w.countChunk, Source(w, s)), Input(job.abort, s.items))
  {
    if ReadOut(job, w, s) {
      var o := Source(w, s);
      R.RelayIsDetermined(CutShort(job, w.countChunk, o), w.countChunk, s.items, s.end, s.ok, s.tokens);
      if StopsReading(job, w.countChunk, o) {
        AbandonedItems(job, w.countChunk, o, s.items, s.end, s.ok, s.tokens);
        ReadIsEnough(job, w.countChunk, o);
      }
    }
  }

  ghost predicate SameTransmission(job: Job, a: seq<Byte>, b: seq<Byte>)
  {
    && Transmission(job.json, FramesOf(job, a)) == Transmission(job.json, FramesOf(job, b))
    && AllSendable(job.json, FramesOf(job, a)) == AllSendable(job.json, FramesOf(job, b))
  }

  /** What an abandoned relay yields and how it ends. */
  lemma {:induction false} AbandonedItems(job: Job, count: R.ChunkCounter, o: R.Opening,
      items: seq<R.Item>, end: R.StreamEnd, ok: bool, tokens: int)
    requires StopsReading(job, count, o) && R.Relays(CutShort(job, count, o), count, items, end, ok, tokens)
    ensures var read := ReadOf(job, count, o);
      items == R.AsItems(read) && end == R.Disconnected && ok && tokens == R.SumOf(count, read)
  {
    var arriving, read := R.Arriving(o), ReadOf(job, count, o);
    R.PassedPrefix(count, arriving);
    R.PassedCounts(count, arriving);
    assert read <= arriving <= o.chunks;
    assert R.Arriving(CutShort(job, count, o)) == read;
    R.PassedAll(count, read);
  }

  /** What was read is enough for the translation. */
  lemma {:induction false} ReadIsEnough(job: Job, count: R.ChunkCounter, o: R.Opening)
    requires StopsReading(job, count, o)
    ensures SameTransmission(job, FullInput(job, count, o), Input(job.abort, R.AsItems(ReadOf(job, count, o))))
  {
    ReadHasStopped(job, count, o);
    InputOfItems(job.abort, ReadOf(job, count, o));
    InputExtends(job, count, o, |ReadOf(job, count, o)|);
    PrefixIsEnough(job, Flatten(ReadOf(job, count, o)), FullInput(job, count, o));
  }

  lemma ReadHasStopped(job: Job, count: R.ChunkCounter, o: R.Opening)
    requires StopsReading(job, count, o)
    ensures HasStopped(job, Flatten(ReadOf(job, count, o)))
    ensures var passed := R.Passed(count, R.Arriving(o));
      |ReadOf(job, count, o)| <= |passed| && ReadOf(job, count, o) == passed[..|ReadOf(job, count, o)|]
  {
    StopsFirst(Stops(job), R.Passed(count, R.Arriving(o)));
  }

  lemma PrefixIsEnough(job: Job, input: seq<Byte>, all: seq<Byte>)
    requires HasStopped(job, input) && input <= all
    ensures SameTransmission(job, all, input)
  {
    assert all == input + all[|input|..];
    StopFixes(job, input, all[|input|..]);
  }

  lemma {:induction false} InputExtends(job: Job, count: R.ChunkCounter, o: R.Opening, n: nat)
    requires o.Opened? && o.status < 400 && n <= |R.Passed(count, R.Arriving(o))|
    ensures Flatten(R.Passed(count, R.Arriving(o))[..n]) <= FullInput(job, count, o)
  {
    var passed := R.Passed(count, R.Arriving(o));
    assert passed == passed[..n] + passed[n..];
    FlattenAppend(passed[..n], passed[n..]);
    InputOfItems(job.abort, passed);
    InputOfAborted(job.abort, passed, R.Uncaught);
    if o.ending.Broken? {
      InputOfAborted(job.abort, passed, o.ending.error);
    }
  }

  /** The translator stops the relay before its end, and nothing cuts the relay's clean-up short. */
  predicate StoppedRelay(job: Job, w: R.World, s: R.StreamRun)
  {
    && s.source.Some? && s.noted
    && StopsReading(job, w.countChunk, Source(w, s)) && Source(w, s).closes
  }

  /** A relay that the translator has stopped, be it at an error record of the node, gives its slot back
      and is observed as a success, with the tokens of the chunks read so far. */
  lemma {:induction false} StoppedIsSuccess(job: Job, w: R.World, maxRetries: int, retryStreaming: bool, s: R.StreamRun)
    requires R.IsStreamRun(ReadBy(job, w), maxRetries, retryStreaming, s) && StoppedRelay(job, w, s)
    ensures var node, o := s.source.value, Source(w, s);
      var read := ReadOf(job, w.countChunk, o);
      && s.items == R.AsItems(read)
      && R.StreamLog(ReadBy(job, w), s) == R.Log(s.trace) + R.Drops(s.dropped)
         + [R.Taken(node), R.Closed(node), R.Returned(node), R.Observed(node, true, o.status, R.SumOf(w.countChunk, read))]
      && R.Held(R.StreamLog(ReadBy(job, w), s)) == Some(None)
  {
    AbandonedItems(job, w.countChunk, Source(w, s), s.items, s.end, s.ok, s.tokens);
    R.StreamSlotReturned(ReadBy(job, w), maxRetries, retryStreaming, s);
  }

  // ---------------------------------------------------------------------------
  // Aborted streams
  // ---------------------------------------------------------------------------

  lemma {:induction false} InputOfItems(abort: seq<Byte>, chunks: seq<seq<Byte>>)
    ensures Input(abort, R.AsItems(chunks)) == Flatten(chunks)
  {
    if chunks != [] {
      InputOfItems(abort, Front(chunks));
      assert Front(R.AsItems(chunks)) == R.AsItems(Front(chunks));
      FlattenAppend(ChunksOf(abort, R.AsItems(Front(chunks))), [Last(chunks)]);
      FlattenOne(Last(chunks));
    }
  }

  lemma InputOfAborted(abort: seq<Byte>, chunks: seq<seq<Byte>>, error: R.Error)
    ensures Input(abort, R.AsItems(chunks) + [R.ErrorEvent(error)]) == Flatten(chunks) + (abort + [NEWLINE])
  {
    var items := R.AsItems(chunks) + [R.ErrorEvent(error)];
    assert Front(items) == R.AsItems(chunks);
    InputOfItems(abort, chunks);
    FlattenAppend(ChunksOf(abort, R.AsItems(chunks)), [abort + [NEWLINE]]);
    FlattenOne(abort + [NEWLINE]);
  }

  /** The gateway's line is glued to whatever line the node left unfinished. */
  lemma {:induction false} EventsOfAborted(decode: Decoder<Event>, d: seq<Byte>, abort: seq<Byte>)
    requires NEWLINE !in abort
    ensures Events(decode, d + (abort + [NEWLINE])) == Completed(decode, d) + LineEvents(decode, Unfinished(d) + abort)
  {
    var line := Unfinished(d) + abort;
    NextChunk(decode, d, abort + [NEWLINE]);
    assert Unfinished(d) + (abort + [NEWLINE]) == line + [NEWLINE];
    UnfinishedHasNoNewline(d);
    OneLineThenNothing(decode, line);
    var all := d + (abort + [NEWLINE]);
    assert Events(decode, all) == Completed(decode, all) + LineEvents(decode, Unfinished(all));
    assert Strip([]) == [];
  }

  lemma OneLineThenNothing(decode: Decoder<Event>, line: seq<Byte>)
    requires NEWLINE !in line
    ensures Completed(decode, line + [NEWLINE]) == LineEvents(decode, line) && Unfinished(line + [NEWLINE]) == []
  {
    assert line + [NEWLINE] == line + [NEWLINE] + [];
    SplitFirst(line + [NEWLINE], line, []);
    NoLine(decode, []);
    EventsOfCons(decode, line, Lines([]));
  }

  /** The unfinished line and the gateway's line together decode to an error record. */
  predicate Announces(decode: Decoder<Event>, d: seq<Byte>, abort: seq<Byte>)
  {
    var text := Strip(Unfinished(d) + abort);
    text != [] && decode(text).Some? && IsError(decode(text).value)
  }

  lemma {:induction false} FirstErrorOfTwo(a: seq<Event>, b: seq<Event>)
    requires NoErrorIn(a) && |b| <= 1
    ensures FirstError(a + b).Some? <==> b != [] && IsError(b[0])
  {
    if a == [] {
      assert a + b == b;
      assert b != [] ==> b[1..] == [];
    } else {
      assert (a + b)[1..] == a[1..] + b && !IsError(a[0]);
      FirstErrorOfTwo(a[1..], b);
    }
  }

  /** An aborted stream: the client is told exactly if the unfinished line, with the gateway's line
      glued to it, happens to decode to an error record; otherwise it sees a regular end. */
  lemma {:induction false} AbortIsTold(decode: Decoder<Event>, json: Serializer, read: Parser, parse: ParseInt, head: Head, includeUsage: bool,
      abort: seq<Byte>, d: seq<Byte>, out: seq<seq<Byte>>)
    requires WritesOneLine(json) && Parses(read, json) && NEWLINE !in abort
    requires NoErrorIn(Completed(decode, d))
    requires Sent(json, ChatFrames(head, parse, includeUsage, Events(decode, d + (abort + [NEWLINE]))), out, false)
    ensures var got := Read(NOTHING, Received(read, out));
      got.ended && (got.error.Some? <==> Announces(decode, d, abort))
  {
    var input := d + (abort + [NEWLINE]);
    FlattenOne(input);
    EndToEnd(decode, json, read, parse, head, includeUsage, [input], out, false);
    EventsOfAborted(decode, d, abort);
    FirstErrorOfTwo(Completed(decode, d), LineEvents(decode, Unfinished(d) + abort));
  }

  /** A stream that breaks after its last newline is always announced. */
  lemma {:induction false} AbortAfterLineIsTold(decode: Decoder<Event>, d: seq<Byte>, abort: seq<Byte>)
    requires Unfinished(d) == [] && Strip(abort) == abort != [] && decode(abort).Some? && IsError(decode(abort).value)
    ensures Announces(decode, d, abort)
  {
    assert Unfinished(d) + abort == abort;
  }

  /** A stream that breaks inside its first line, which with the gateway's line glued to it is no
      JSON: the client gets the opening chunk and `[DONE]`, and no error. */
  lemma {:induction false} AbortInsideLineIsSilent(w: R.World, maxRetries: int, retryStreaming: bool, s: R.StreamRun, error: R.Error,
      decode: Decoder<Event>, json: Serializer, parse: ParseInt, head: Head, includeUsage: bool, abort: seq<Byte>, fragment: seq<Byte>,
      out: seq<seq<Byte>>, raised: bool)
    requires R.IsStreamRun(w, maxRetries, retryStreaming, s) && s.items == R.AsItems([fragment]) + [R.ErrorEvent(error)]
    requires NEWLINE !in fragment && NEWLINE !in abort && decode(Strip(fragment + abort)) == None
    requires Sent(json, ChatFrames(head, parse, includeUsage, Events(decode, Input(abort, s.items))), out, raised)
    ensures out == Transmission(json, [Opening(head), None])
  {
    InputOfAborted(abort, [fragment], error);
    FlattenOne(fragment);
    NoLineIn(decode, fragment);
    EventsOfAborted(decode, fragment, abort);
    assert Events(decode, Input(abort, s.items)) == [];
  }

  lemma NoLineIn(decode: Decoder<Event>, s: seq<Byte>)
    requires NEWLINE !in s
    ensures Completed(decode, s) == [] && Unfinished(s) == s
  {
    FirstNewlineFound(s);
    NoLine(decode, s);
  }
}
