/** Translation of an upstream NDJSON reply into server-sent events, and what a client
    following section 9.2 of the WHATWG HTML Living Standard reads back. Both generators can
    raise in the middle: a record may have a shape they do not expect, and a text with a lone
    surrogate cannot be encoded. Then what was sent stays sent, and nothing follows. */
module ChatStream {
  import opened Common
  import opened Sequences
  import opened Ndjson
  import opened Tokens

  /** A tool call, by its JSON text. */
  type ToolCall = Text

  /** One upstream record; a missing field has the value that is false in Python. A record is not
      `readable` if decoding it raises something the parser does not catch; its message is `odd`
      if it is neither false nor an object. */
  datatype Event = Event(
    readable: bool, odd: bool, error: Text, code: Text, content: Text, toolCalls: seq<ToolCall>, topToolCalls: seq<ToolCall>,
    response: Text, done: bool, promptEval: Value, eval: Value)

  datatype Usage = Usage(prompt: int, completion: int, total: int)
  datatype Delta = Delta(role: Option<string>, content: Option<Text>, toolCalls: Option<seq<ToolCall>>)
  datatype Choice = Choice(delta: Delta, finish: Option<string>)
  datatype Chunk = Chunk(head: Head, kind: string, choices: seq<Choice>, usage: Option<Usage>)

  /** What every chunk of one reply repeats. */
  datatype Head = Head(id: string, model: Text, created: int)

  /** What the generator produces next; `Raised` is an exception in its place. */
  datatype Reply = Part(chunk: Chunk) | Failure(message: Text, code: Text) | Raised

  /** A server-sent event; None is `[DONE]`. */
  type Frame = Option<Reply>

  const EMPTY := Delta(None, None, None)

  const RAISED: Frame := Some(Raised)

  /** The token counts of a record, None where converting them raises. */
  function UsageOf(parse: ParseInt, e: Event): Option<Usage>
  {
    var prompt, completion := ToInt(parse, e.promptEval), ToInt(parse, e.eval);
    if prompt.Some? && completion.Some? then Some(Usage(prompt.value, completion.value, prompt.value + completion.value)) else None
  }

  function FinishReason(e: Event): string
  {
    if e.toolCalls != [] || e.topToolCalls != [] then "tool_calls" else "stop"
  }

  function ChatChunk(head: Head, delta: Delta, finish: Option<string>): Frame
  {
    Some(Part(Chunk(head, "chat.completion.chunk", [Choice(delta, finish)], None)))
  }

  /** A plain string as code points. */
  function Points(s: string): Text
  {
    seq(|s|, i requires 0 <= i < |s| => s[i] as int)
  }

  function LowerPoint(c: CodePoint): CodePoint
  {
    if 65 <= c <= 90 then c + 32 else c
  }

  function Lower(s: Text): Text
  {
    seq(|s|, i requires 0 <= i < |s| => LowerPoint(s[i]))
  }

  function ErrorCode(e: Event): Text
  {
    Lower(if e.code == [] then Points("UPSTREAM_ERROR") else e.code)
  }

  function StreamError(e: Event): Frame
  {
    Some(Failure(e.error, ErrorCode(e)))
  }

  function UsageChunk(head: Head, usage: Usage): Frame
  {
    Some(Part(Chunk(head, "chat.completion.chunk", [], Some(usage))))
  }

  // ---------------------------------------------------------------------------
  // Specification
  // ---------------------------------------------------------------------------

  predicate IsError(e: Event)
  {
    e.readable && e.error != []
  }

  /** The events up to the first error. */
  function BeforeError(events: seq<Event>): seq<Event>
  {
    if events == [] || IsError(events[0]) then [] else [events[0]] + BeforeError(events[1..])
  }

  function FirstError(events: seq<Event>): Option<Event>
  {
    if events == [] then None
    else if IsError(events[0]) then Some(events[0])
    else FirstError(events[1..])
  }

  /** The usage remembered from the last event that is done. */
  function LastUsage(parse: ParseInt, events: seq<Event>): Option<Usage>
  {
    if events == [] then None
    else if Last(events).done then UsageOf(parse, Last(events))
    else LastUsage(parse, Front(events))
  }

  function ContentOf(text: Text): Option<Text>
  {
    if text == [] then None else Some(text)
  }

  function ToolsOf(calls: seq<ToolCall>): Option<seq<ToolCall>>
  {
    if calls == [] then None else Some(calls)
  }

  function Body(head: Head, e: Event): seq<Frame>
  {
    var delta := Delta(None, ContentOf(e.content), ToolsOf(e.toolCalls));
    if delta == EMPTY then [] else [ChatChunk(head, delta, None)]
  }

  /** The end of a done event: its finish reason, or an exception while its usage is read. */
  function Finish(head: Head, parse: ParseInt, e: Event): seq<Frame>
  {
    if !e.done then []
    else if UsageOf(parse, e).None? then [RAISED]
    else [ChatChunk(head, EMPTY, Some(FinishReason(e)))]
  }

  /** The frames for one event that is not an error. */
  function Translate(head: Head, parse: ParseInt, e: Event): seq<Frame>
  {
    if !e.readable || e.odd then [RAISED] else Body(head, e) + Finish(head, parse, e)
  }

  function TranslateAll(head: Head, parse: ParseInt, events: seq<Event>): seq<Frame>
  {
    if events == [] then [] else TranslateAll(head, parse, Front(events)) + Translate(head, parse, Last(events))
  }

  function Opening(head: Head): Frame
  {
    ChatChunk(head, Delta(Some("assistant"), Some([]), None), None)
  }

  /** The end of the stream: an error, or the usage chunk if asked for; always `[DONE]`. */
  function ChatEnd(head: Head, parse: ParseInt, includeUsage: bool, events: seq<Event>): seq<Frame>
  {
    match FirstError(events)
    case Some(e) => [StreamError(e), None]
    case None =>
      match LastUsage(parse, events)
      case Some(usage) => if includeUsage then [UsageChunk(head, usage), None] else [None]
      case None => [None]
  }

  /** What the generator would send if nothing could raise; it stops at the first frame that does. */
  function ChatFrames(head: Head, parse: ParseInt, includeUsage: bool, events: seq<Event>): seq<Frame>
  {
    [Opening(head)] + TranslateAll(head, parse, BeforeError(events)) + ChatEnd(head, parse, includeUsage, events)
  }

  function CompletionFrame(head: Head, e: Event): Frame
  {
    if !e.readable then RAISED
    else Some(Part(Chunk(head, "text_completion",
      [Choice(Delta(None, ContentOf(e.response), None), if e.done then Some("stop") else None)], None)))
  }

  function CompletionAll(head: Head, events: seq<Event>): seq<Frame>
  {
    if events == [] then [] else CompletionAll(head, Front(events)) + [CompletionFrame(head, Last(events))]
  }

  function CompletionEnd(events: seq<Event>): seq<Frame>
  {
    match FirstError(events)
    case Some(e) => [StreamError(e), None]
    case None => [None]
  }

  function CompletionFrames(head: Head, events: seq<Event>): seq<Frame>
  {
    CompletionAll(head, BeforeError(events)) + CompletionEnd(events)
  }

  // ---------------------------------------------------------------------------
  // Framing
  // ---------------------------------------------------------------------------

  const DATA: seq<Byte> := [100, 97, 116, 97]
  const DONE: seq<Byte> := [91, 68, 79, 78, 69, 93]
  const COLON: Byte := 58
  const SPACE: Byte := 32
  const RETURN: Byte := 13

  /** `json.dumps(...).encode("utf-8")`, None where it raises. */
  type Serializer = Reply -> Option<seq<Byte>>

  /** The payload of a frame, None where the generator raises instead of sending it. */
  function Payload(json: Serializer, f: Frame): Option<seq<Byte>>
  {
    match f
    case None => Some(DONE)
    case Some(Raised) => None
    case Some(reply) => json(reply)
  }

  predicate Sendable(json: Serializer, f: Frame)
  {
    Payload(json, f).Some?
  }

  predicate AllSendable(json: Serializer, frames: seq<Frame>)
  {
    forall f :: f in frames ==> Sendable(json, f)
  }

  /** The frames before the first one that cannot be sent. */
  function Until(json: Serializer, frames: seq<Frame>): seq<Frame>
  {
    if frames == [] || !Sendable(json, frames[0]) then [] else [frames[0]] + Until(json, frames[1..])
  }

  function Sse(json: Serializer, f: Frame): seq<Byte>
    requires Sendable(json, f)
  {
    DATA + [COLON, SPACE] + Payload(json, f).value + [NEWLINE, NEWLINE]
  }

  /** The byte strings handed to the client, one per frame. */
  function Wire(json: Serializer, frames: seq<Frame>): seq<seq<Byte>>
    requires AllSendable(json, frames)
  {
    if frames == [] then [] else Wire(json, Front(frames)) + [Sse(json, Last(frames))]
  }

  lemma {:induction false} UntilSendable(json: Serializer, frames: seq<Frame>)
    ensures AllSendable(json, Until(json, frames)) && Until(json, frames) <= frames
    ensures AllSendable(json, frames) <==> Until(json, frames) == frames
  {
    if frames != [] && Sendable(json, frames[0]) {
      UntilSendable(json, frames[1..]);
      assert frames == [frames[0]] + frames[1..];
      assert AllSendable(json, frames) <==> AllSendable(json, frames[1..]);
    }
  }

  lemma {:induction false} UntilStops(json: Serializer, sent: seq<Frame>, f: Frame, frames: seq<Frame>)
    requires AllSendable(json, sent) && !Sendable(json, f) && sent + [f] <= frames
    ensures Until(json, frames) == sent && !AllSendable(json, frames)
  {
    if sent != [] {
      assert frames[0] == sent[0] && sent[1..] + [f] <= frames[1..];
      UntilStops(json, sent[1..], f, frames[1..]);
    }
    assert frames[|sent|] == f;
  }

  /** What the client is sent of `frames`. */
  function Transmission(json: Serializer, frames: seq<Frame>): seq<seq<Byte>>
  {
    UntilSendable(json, frames);
    Wire(json, Until(json, frames))
  }

  // ---------------------------------------------------------------------------
  // The generators
  // ---------------------------------------------------------------------------

  /** All of `frames` is out; or, if the generator has raised, what comes before that. */
  ghost predicate Sent(json: Serializer, frames: seq<Frame>, out: seq<seq<Byte>>, raised: bool)
  {
    out == Transmission(json, frames) && raised == !AllSendable(json, frames)
  }

  lemma SentNothing(json: Serializer)
    ensures Sent(json, [], [], false)
  {
  }

  /** After an exception nothing more is sent, whatever would have followed. */
  lemma StaysRaised(json: Serializer, frames: seq<Frame>, more: seq<Frame>, out: seq<seq<Byte>>)
    requires Sent(json, frames, out, true)
    ensures Sent(json, frames + more, out, true)
  {
    UntilSendable(json, frames);
    var sent := Until(json, frames);
    UntilFailsNext(json, frames);
    UntilStops(json, sent, frames[|sent|], frames + more);
  }

  lemma {:induction false} UntilFailsNext(json: Serializer, frames: seq<Frame>)
    requires !AllSendable(json, frames)
    ensures var sent := Until(json, frames);
      |sent| < |frames| && !Sendable(json, frames[|sent|]) && sent + [frames[|sent|]] <= frames
  {
    if Sendable(json, frames[0]) {
      assert frames == [frames[0]] + frames[1..];
      UntilFailsNext(json, frames[1..]);
    }
  }

  /** What is sent next follows what is out. */
  lemma SentMore(json: Serializer, frames: seq<Frame>, out: seq<seq<Byte>>, more: seq<Frame>, next: seq<seq<Byte>>, raised: bool)
    requires Sent(json, frames, out, false) && Sent(json, more, next, raised)
    ensures Sent(json, frames + more, out + next, raised)
  {
    UntilAppend(json, frames, more);
    UntilSendable(json, frames);
    UntilSendable(json, more);
    UntilSendable(json, frames + more);
    WireAppend(json, frames, Until(json, more));
    assert frames + Until(json, more) == frames + more <==> Until(json, more) == more;
  }

  lemma {:induction false} UntilAppend(json: Serializer, frames: seq<Frame>, more: seq<Frame>)
    requires AllSendable(json, frames)
    ensures Until(json, frames + more) == frames + Until(json, more)
  {
    if frames == [] {
      assert frames + more == more;
    } else {
      UntilAppend(json, frames[1..], more);
      assert (frames + more)[0] == frames[0] && (frames + more)[1..] == frames[1..] + more;
    }
  }

  lemma {:induction false} WireAppend(json: Serializer, a: seq<Frame>, b: seq<Frame>)
    requires AllSendable(json, a) && AllSendable(json, b)
    ensures AllSendable(json, a + b) && Wire(json, a + b) == Wire(json, a) + Wire(json, b)
  {
    if b == [] {
      assert a + b == a;
    } else {
      FrontOfAppend(a, b);
      WireAppend(json, a, Front(b));
    }
  }

  method Yield(json: Serializer, f: Frame) returns (next: seq<seq<Byte>>, raised: bool)
    ensures Sent(json, [f], next, raised)
  {
    assert f in [f] && Front([f]) == [] && Until(json, []) == [];
    if Payload(json, f).None? {
      return [], true;
    }
    UntilSendable(json, [f]);
    assert Until(json, [f]) == [f] && Wire(json, []) == [];
    next, raised := [Sse(json, f)], false;
  }

  method YieldAll(json: Serializer, fs: seq<Frame>) returns (next: seq<seq<Byte>>, raised: bool)
    ensures Sent(json, fs, next, raised)
  {
    next, raised := [], false;
    SentNothing(json);
    for i := 0 to |fs|
      invariant Sent(json, fs[..i], next, false)
    {
      var one: seq<seq<Byte>>;
      one, raised := Yield(json, fs[i]);
      SentMore(json, fs[..i], next, [fs[i]], one, raised);
      next := next + one;
      assert fs[..i + 1] == fs[..i] + [fs[i]];
      if raised {
        StaysRaisedIn(json, fs[..i + 1], fs, next);
        return;
      }
    }
    assert fs[..|fs|] == fs;
  }

  method YieldEvent(json: Serializer, parse: ParseInt, head: Head, e: Event) returns (next: seq<seq<Byte>>, raised: bool)
    ensures Sent(json, Translate(head, parse, e), next, raised)
  {
    if !e.readable || e.odd {
      next, raised := Yield(json, RAISED);
      return;
    }
    var delta := EMPTY;
    if e.content != [] {
      delta := delta.(content := Some(e.content));
    }
    if e.toolCalls != [] {
      delta := delta.(toolCalls := Some(e.toolCalls));
    }
    var parts: seq<Frame> := [];
    if delta != EMPTY {
      parts := parts + [ChatChunk(head, delta, None)];
    }
    if e.done {
      var usage := UsageOf(parse, e);
      parts := parts + [if usage.None? then RAISED else ChatChunk(head, EMPTY, Some(FinishReason(e)))];
    }
    assert parts == Translate(head, parse, e);
    next, raised := YieldAll(json, parts);
  }

  method ToChatSse(decode: Decoder<Event>, json: Serializer, parse: ParseInt, head: Head, includeUsage: bool, chunks: seq<seq<Byte>>)
    returns (out: seq<seq<Byte>>, raised: bool)
    ensures Sent(json, ChatFrames(head, parse, includeUsage, Events(decode, Flatten(chunks))), out, raised)
  {
    var events, _ := NdjsonLines(decode, chunks);
    out, raised := ChatSse(json, parse, head, includeUsage, events);
  }

  /** The state of the chat loop before event `n`. */
  ghost predicate ChatAt(head: Head, parse: ParseInt, events: seq<Event>, n: nat, usage: Option<Usage>, sent: seq<Frame>)
    requires n <= |events|
  {
    && NoErrorIn(events[..n])
    && sent == [Opening(head)] + TranslateAll(head, parse, events[..n])
    && usage == LastUsage(parse, events[..n])
  }

  ghost predicate NoErrorIn(events: seq<Event>)
  {
    forall k :: 0 <= k < |events| ==> !IsError(events[k])
  }

  method ChatSse(json: Serializer, parse: ParseInt, head: Head, includeUsage: bool, events: seq<Event>)
    returns (out: seq<seq<Byte>>, raised: bool)
    ensures Sent(json, ChatFrames(head, parse, includeUsage, events), out, raised)
  {
    var usage: Option<Usage> := None;
    ghost var sent, all := [Opening(head)], ChatFrames(head, parse, includeUsage, events);
    out, raised := Yield(json, Opening(head));
    if raised {
      StaysRaisedIn(json, sent, all, out);
      return;
    }
    assert ChatAt(head, parse, events, 0, usage, sent);
    for n := 0 to |events|
      invariant Sent(json, sent, out, false) && ChatAt(head, parse, events, n, usage, sent)
    {
      var e, next := events[n], [];
      if IsError(e) {
        ChatStops(head, parse, includeUsage, events, n, usage, sent);
        next, raised := YieldAll(json, [StreamError(e), None]);
        SentMore(json, sent, out, [StreamError(e), None], next, raised);
        out := out + next;
        return;
      }
      next, raised := YieldEvent(json, parse, head, e);
      SentMore(json, sent, out, Translate(head, parse, e), next, raised);
      out := out + next;
      ChatContinues(head, parse, events, n, usage, sent);
      sent := sent + Translate(head, parse, e);
      if raised {
        ChatPrefix(head, parse, includeUsage, events, n + 1);
        StaysRaisedIn(json, sent, all, out);
        return;
      }
      usage := if e.done then UsageOf(parse, e) else usage;
    }
    ChatEnds(head, parse, includeUsage, events, usage, sent);
    var end := if includeUsage && usage.Some? then [UsageChunk(head, usage.value), None] else [None];
    var next;
    next, raised := YieldAll(json, end);
    SentMore(json, sent, out, end, next, raised);
    out := out + next;
  }

  lemma StaysRaisedIn(json: Serializer, frames: seq<Frame>, all: seq<Frame>, out: seq<seq<Byte>>)
    requires Sent(json, frames, out, true) && frames <= all
    ensures Sent(json, all, out, true)
  {
    assert all == frames + all[|frames|..];
    StaysRaised(json, frames, all[|frames|..], out);
  }

  lemma ChatContinues(head: Head, parse: ParseInt, events: seq<Event>, n: nat, usage: Option<Usage>, sent: seq<Frame>)
    requires n < |events| && ChatAt(head, parse, events, n, usage, sent) && !IsError(events[n])
    ensures ChatAt(head, parse, events, n + 1, if events[n].done then UsageOf(parse, events[n]) else usage,
      sent + Translate(head, parse, events[n]))
  {
    assert Front(events[..n + 1]) == events[..n] && Last(events[..n + 1]) == events[n];
  }

  lemma ChatStops(head: Head, parse: ParseInt, includeUsage: bool, events: seq<Event>, n: nat, usage: Option<Usage>, sent: seq<Frame>)
    requires n < |events| && ChatAt(head, parse, events, n, usage, sent) && IsError(events[n])
    ensures sent + [StreamError(events[n]), None] == ChatFrames(head, parse, includeUsage, events)
  {
    StopsAtError(events, n);
  }

  lemma ChatEnds(head: Head, parse: ParseInt, includeUsage: bool, events: seq<Event>, usage: Option<Usage>, sent: seq<Frame>)
    requires ChatAt(head, parse, events, |events|, usage, sent)
    ensures ChatFrames(head, parse, includeUsage, events)
      == sent + if includeUsage && usage.Some? then [UsageChunk(head, usage.value), None] else [None]
  {
    assert events[..|events|] == events;
    NoError(events);
  }

  /** The frames of the first events come first, whatever the later ones are. */
  lemma ChatPrefix(head: Head, parse: ParseInt, includeUsage: bool, events: seq<Event>, n: nat)
    requires n <= |events| && NoErrorIn(events[..n])
    ensures [Opening(head)] + TranslateAll(head, parse, events[..n]) <= ChatFrames(head, parse, includeUsage, events)
  {
    BeforeErrorHas(events, n);
    var before := BeforeError(events);
    assert before == events[..n] + before[n..];
    TranslateAllAppend(head, parse, events[..n], before[n..]);
  }

  lemma {:induction false} BeforeErrorHas(events: seq<Event>, n: nat)
    requires n <= |events| && NoErrorIn(events[..n])
    ensures events[..n] <= BeforeError(events)
  {
    if n > 0 {
      assert !IsError(events[..n][0]);
      assert events[..n][1..] == events[1..][..n - 1];
      BeforeErrorHas(events[1..], n - 1);
      assert events[..n] == [events[0]] + events[1..][..n - 1];
    }
  }

  lemma {:induction false} TranslateAllAppend(head: Head, parse: ParseInt, a: seq<Event>, b: seq<Event>)
    ensures TranslateAll(head, parse, a + b) == TranslateAll(head, parse, a) + TranslateAll(head, parse, b)
  {
    if b == [] {
      assert a + b == a;
    } else {
      FrontOfAppend(a, b);
      TranslateAllAppend(head, parse, a, Front(b));
    }
  }

  method ToCompletionSse(decode: Decoder<Event>, json: Serializer, head: Head, chunks: seq<seq<Byte>>)
    returns (out: seq<seq<Byte>>, raised: bool)
    ensures Sent(json, CompletionFrames(head, Events(decode, Flatten(chunks))), out, raised)
  {
    var events, _ := NdjsonLines(decode, chunks);
    out, raised := CompletionSse(json, head, events);
  }

  method CompletionSse(json: Serializer, head: Head, events: seq<Event>) returns (out: seq<seq<Byte>>, raised: bool)
    ensures Sent(json, CompletionFrames(head, events), out, raised)
  {
    out, raised := [], false;
    ghost var sent: seq<Frame> := [];
    SentNothing(json);
    for n := 0 to |events|
      invariant Sent(json, sent, out, false) && NoErrorIn(events[..n]) && sent == CompletionAll(head, events[..n])
    {
      var e, next := events[n], [];
      if IsError(e) {
        StopsAtError(events, n);
        next, raised := YieldAll(json, [StreamError(e), None]);
        SentMore(json, sent, out, [StreamError(e), None], next, raised);
        out := out + next;
        return;
      }
      next, raised := Yield(json, CompletionFrame(head, e));
      SentMore(json, sent, out, [CompletionFrame(head, e)], next, raised);
      out := out + next;
      CompletionContinues(head, events, n);
      sent := sent + [CompletionFrame(head, e)];
      if raised {
        CompletionPrefix(head, events, n + 1);
        StaysRaisedIn(json, sent, CompletionFrames(head, events), out);
        return;
      }
    }
    assert events[..|events|] == events;
    NoError(events);
    var done;
    done, raised := YieldAll(json, [None]);
    SentMore(json, sent, out, [None], done, raised);
    out := out + done;
  }

  lemma CompletionContinues(head: Head, events: seq<Event>, n: nat)
    requires n < |events| && NoErrorIn(events[..n]) && !IsError(events[n])
    ensures NoErrorIn(events[..n + 1])
    ensures CompletionAll(head, events[..n + 1]) == CompletionAll(head, events[..n]) + [CompletionFrame(head, events[n])]
  {
    assert Front(events[..n + 1]) == events[..n] && Last(events[..n + 1]) == events[n];
  }

  lemma CompletionPrefix(head: Head, events: seq<Event>, n: nat)
    requires n <= |events| && NoErrorIn(events[..n])
    ensures CompletionAll(head, events[..n]) <= CompletionFrames(head, events)
  {
    BeforeErrorHas(events, n);
    var before := BeforeError(events);
    assert before == events[..n] + before[n..];
    CompletionAllAppend(head, events[..n], before[n..]);
  }

  lemma {:induction false} CompletionAllAppend(head: Head, a: seq<Event>, b: seq<Event>)
    ensures CompletionAll(head, a + b) == CompletionAll(head, a) + CompletionAll(head, b)
  {
    if b == [] {
      assert a + b == a;
    } else {
      FrontOfAppend(a, b);
      CompletionAllAppend(head, a, Front(b));
    }
  }

  lemma {:induction false} StopsAtError(events: seq<Event>, n: nat)
    requires n < |events| && IsError(events[n])
    requires NoErrorIn(events[..n])
    ensures BeforeError(events) == events[..n] && FirstError(events) == Some(events[n])
  {
    if n > 0 {
      assert !IsError(events[..n][0]);
      assert events[..n][1..] == events[1..][..n - 1];
      StopsAtError(events[1..], n - 1);
      assert events[..n] == [events[0]] + events[1..][..n - 1];
    }
  }

  lemma {:induction false} NoError(events: seq<Event>)
    requires NoErrorIn(events)
    ensures BeforeError(events) == events && FirstError(events) == None
  {
    if events != [] {
      NoError(events[1..]);
    }
  }

  // ---------------------------------------------------------------------------
  // What the frames mean
  // ---------------------------------------------------------------------------

  /** What a client of the chat contract has understood so far. */
  datatype Reading = Reading(
    text: Text, tools: seq<ToolCall>, finishes: seq<string>,
    error: Option<(Text, Text)>, usage: Option<Usage>, ended: bool)

  const NOTHING := Reading([], [], [], None, None, false)

  function OrEmpty<T>(o: Option<seq<T>>): seq<T>
  {
    match o case Some(s) => s case None => []
  }

  function ReadChoice(r: Reading, c: Choice): Reading
  {
    r.(text := r.text + OrEmpty(c.delta.content),
       tools := r.tools + OrEmpty(c.delta.toolCalls),
       finishes := match c.finish case Some(reason) => r.finishes + [reason] case None => r.finishes)
  }

  function ReadFrame(r: Reading, f: Frame): Reading
  {
    if r.ended then r
    else match f
      case None => r.(ended := true)
      case Some(Raised) => r
      case Some(Failure(message, code)) => r.(error := Some((message, code)))
      case Some(Part(chunk)) =>
        var seen := if chunk.usage.Some? then r.(usage := chunk.usage) else r;
        if chunk.choices == [] then seen else ReadChoice(seen, chunk.choices[0])
  }

  function Read(r: Reading, frames: seq<Frame>): Reading
  {
    if frames == [] then r else ReadFrame(Read(r, Front(frames)), Last(frames))
  }

  lemma {:induction false} ReadAppend(r: Reading, a: seq<Frame>, b: seq<Frame>)
    ensures Read(r, a + b) == Read(Read(r, a), b)
  {
    if b == [] {
      assert a + b == a;
    } else {
      FrontOfAppend(a, b);
      ReadAppend(r, a, Front(b));
    }
  }

  lemma ReadOne(r: Reading, f: Frame)
    ensures Read(r, [f]) == ReadFrame(r, f)
  {
    assert Front([f]) == [];
  }

  lemma ReadTwo(r: Reading, f: Frame, g: Frame)
    ensures Read(r, [f, g]) == ReadFrame(ReadFrame(r, f), g)
  {
    assert Front([f, g]) == [f];
    ReadOne(r, f);
  }

  /** What the events say. */
  function Contents(events: seq<Event>): Text
  {
    if events == [] then [] else Contents(Front(events)) + Last(events).content
  }

  function Responses(events: seq<Event>): Text
  {
    if events == [] then [] else Responses(Front(events)) + Last(events).response
  }

  function ToolCalls(events: seq<Event>): seq<ToolCall>
  {
    if events == [] then [] else ToolCalls(Front(events)) + Last(events).toolCalls
  }

  function Finishes(events: seq<Event>): seq<string>
  {
    if events == [] then []
    else if Last(events).done then Finishes(Front(events)) + [FinishReason(Last(events))]
    else Finishes(Front(events))
  }

  function Stops(events: seq<Event>): seq<string>
  {
    if events == [] then []
    else if Last(events).done then Stops(Front(events)) + ["stop"]
    else Stops(Front(events))
  }

  function ErrorOf(events: seq<Event>): Option<(Text, Text)>
  {
    match FirstError(events)
    case Some(e) => Some((e.error, ErrorCode(e)))
    case None => None
  }

  /** A record the chat generator can handle. */
  predicate Handled(parse: ParseInt, e: Event)
  {
    e.readable && !e.odd && (e.done ==> UsageOf(parse, e).Some?)
  }

  ghost predicate AllHandled(parse: ParseInt, events: seq<Event>)
  {
    forall e :: e in events ==> Handled(parse, e)
  }

  lemma ReadTranslate(head: Head, parse: ParseInt, r: Reading, e: Event)
    requires !r.ended && Handled(parse, e)
    ensures Read(r, Translate(head, parse, e)) == r.(
      text := r.text + e.content, tools := r.tools + e.toolCalls,
      finishes := if e.done then r.finishes + [FinishReason(e)] else r.finishes)
  {
    var delta := Delta(None, ContentOf(e.content), ToolsOf(e.toolCalls));
    var part, last := ChatChunk(head, delta, None), ChatChunk(head, EMPTY, Some(FinishReason(e)));
    if delta != EMPTY && e.done {
      assert Translate(head, parse, e) == [part, last];
      ReadTwo(r, part, last);
    } else if delta != EMPTY {
      assert Translate(head, parse, e) == [part];
      ReadOne(r, part);
    } else if e.done {
      assert Translate(head, parse, e) == [last];
      ReadOne(r, last);
    } else {
      assert Translate(head, parse, e) == [];
    }
  }

  lemma {:induction false} ReadTranslateAll(head: Head, parse: ParseInt, events: seq<Event>)
    requires AllHandled(parse, events)
    ensures Read(NOTHING, [Opening(head)] + TranslateAll(head, parse, events))
      == NOTHING.(text := Contents(events), tools := ToolCalls(events), finishes := Finishes(events))
  {
    if events == [] {
      assert [Opening(head)] + [] == [Opening(head)];
      ReadOne(NOTHING, Opening(head));
    } else {
      ReadTranslateAll(head, parse, Front(events));
      var before := [Opening(head)] + TranslateAll(head, parse, Front(events));
      assert [Opening(head)] + TranslateAll(head, parse, events) == before + Translate(head, parse, Last(events));
      ReadAppend(NOTHING, before, Translate(head, parse, Last(events)));
      ReadTranslate(head, parse, Read(NOTHING, before), Last(events));
    }
  }

  /** What a client is meant to understand of a reply. */
  function Meaning(parse: ParseInt, includeUsage: bool, events: seq<Event>): Reading
  {
    var before := BeforeError(events);
    Reading(Contents(before), ToolCalls(before), Finishes(before), ErrorOf(events),
      if includeUsage && FirstError(events).None? then LastUsage(parse, events) else None, true)
  }

  /** The translation keeps the meaning: generated text, tool calls and finish reasons of all
      events before the first error, that error, and the last usage if it was asked for. */
  lemma {:induction false} ChatMeaning(head: Head, parse: ParseInt, includeUsage: bool, events: seq<Event>)
    requires AllHandled(parse, BeforeError(events))
    ensures Read(NOTHING, ChatFrames(head, parse, includeUsage, events)) == Meaning(parse, includeUsage, events)
  {
    var before := [Opening(head)] + TranslateAll(head, parse, BeforeError(events));
    ReadTranslateAll(head, parse, BeforeError(events));
    ReadAppend(NOTHING, before, ChatEnd(head, parse, includeUsage, events));
    ReadEnd(head, parse, includeUsage, events, Read(NOTHING, before));
  }

  lemma ReadEnd(head: Head, parse: ParseInt, includeUsage: bool, events: seq<Event>, r: Reading)
    requires !r.ended && r.error == None && r.usage == None
    ensures Read(r, ChatEnd(head, parse, includeUsage, events)) == r.(error := ErrorOf(events),
      usage := if includeUsage && FirstError(events).None? then LastUsage(parse, events) else None, ended := true)
  {
    var end := ChatEnd(head, parse, includeUsage, events);
    if |end| == 2 {
      ReadTwo(r, end[0], end[1]);
      assert end == [end[0], end[1]];
    } else {
      ReadOne(r, end[0]);
      assert end == [end[0]];
    }
  }

  ghost predicate AllReadable(events: seq<Event>)
  {
    forall e :: e in events ==> e.readable
  }

  lemma {:induction false} ReadCompletionAll(head: Head, events: seq<Event>)
    requires AllReadable(events)
    ensures Read(NOTHING, CompletionAll(head, events)) == NOTHING.(text := Responses(events), finishes := Stops(events))
  {
    if events != [] {
      ReadCompletionAll(head, Front(events));
      ReadAppend(NOTHING, CompletionAll(head, Front(events)), [CompletionFrame(head, Last(events))]);
      ReadOne(Read(NOTHING, CompletionAll(head, Front(events))), CompletionFrame(head, Last(events)));
    }
  }

  /** The same for completions; one frame per event. */
  lemma {:induction false} CompletionMeaning(head: Head, events: seq<Event>)
    requires AllReadable(BeforeError(events))
    ensures var before := BeforeError(events);
      Read(NOTHING, CompletionFrames(head, events))
        == Reading(Responses(before), [], Stops(before), ErrorOf(events), None, true)
    ensures |CompletionFrames(head, events)| == |BeforeError(events)| + |CompletionEnd(events)|
  {
    var body := CompletionAll(head, BeforeError(events));
    ReadCompletionAll(head, BeforeError(events));
    CompletionAllShape(head, BeforeError(events));
    ReadAppend(NOTHING, body, CompletionEnd(events));
    match FirstError(events)
    case Some(e) => ReadTwo(Read(NOTHING, body), StreamError(e), None);
    case None => ReadOne(Read(NOTHING, body), None);
  }

  /** A reply of one record in that record's fields: its text, its tool calls, the finish reason that they
      decide, and if asked for the two counts and their sum. */
  lemma {:induction false} OneRecordReply(head: Head, parse: ParseInt, includeUsage: bool, e: Event, prompt: int, completion: int)
    requires e.readable && !e.odd && e.error == [] && e.done
    requires ToInt(parse, e.promptEval) == Some(prompt) && ToInt(parse, e.eval) == Some(completion)
    ensures Read(NOTHING, ChatFrames(head, parse, includeUsage, [e])) == Reading(e.content, e.toolCalls,
      [if e.toolCalls == [] && e.topToolCalls == [] then "stop" else "tool_calls"], None,
      if includeUsage then Some(Usage(prompt, completion, prompt + completion)) else None, true)
  {
    OneMeaning(parse, includeUsage, e);
    ChatMeaning(head, parse, includeUsage, [e]);
  }

  /** A reply that is one error record: its message, and its code in lower case or `upstream_error`. */
  lemma {:induction false} ErrorRecordReply(head: Head, parse: ParseInt, includeUsage: bool, e: Event, code: Text)
    requires e.readable && e.error != [] && |code| == |e.code|
    requires forall i :: 0 <= i < |code| ==> code[i] == if 65 <= e.code[i] <= 90 then e.code[i] + 32 else e.code[i]
    ensures Read(NOTHING, ChatFrames(head, parse, includeUsage, [e]))
      == Reading([], [], [], Some((e.error, if e.code == [] then Points("upstream_error") else code)), None, true)
  {
    assert BeforeError([e]) == [] && FirstError([e]) == Some(e);
    ChatMeaning(head, parse, includeUsage, [e]);
    CodeMeans(e, code);
  }

  lemma {:induction false} CodeMeans(e: Event, code: Text)
    requires |code| == |e.code|
    requires forall i :: 0 <= i < |code| ==> code[i] == if 65 <= e.code[i] <= 90 then e.code[i] + 32 else e.code[i]
    ensures ErrorCode(e) == if e.code == [] then Points("upstream_error") else code
  {
    if e.code == [] {
      assert Lower(Points("UPSTREAM_ERROR")) == Points("upstream_error");
    } else {
      assert Lower(e.code) == code;
    }
  }

  /** A completion of one record: its response, and one stop if it is done. */
  lemma {:induction false} OneCompletionReply(head: Head, e: Event)
    requires e.readable && e.error == []
    ensures Read(NOTHING, CompletionFrames(head, [e])) == Reading(e.response, [], if e.done then ["stop"] else [], None, None, true)
  {
    OneEvent(e);
    CompletionMeaning(head, [e]);
    assert FirstError([e]) == None;
  }

  lemma {:induction false} OneMeaning(parse: ParseInt, includeUsage: bool, e: Event)
    requires Handled(parse, e) && e.error == [] && e.done
    ensures AllHandled(parse, BeforeError([e]))
    ensures Meaning(parse, includeUsage, [e])
      == Reading(e.content, e.toolCalls, [FinishReason(e)], None, if includeUsage then UsageOf(parse, e) else None, true)
  {
    OneEvent(e);
    assert FirstError([e]) == None;
    assert Last([e]) == e && LastUsage(parse, [e]) == UsageOf(parse, e);
  }

  lemma {:induction false} OneEvent(e: Event)
    ensures !IsError(e) ==> BeforeError([e]) == [e]
    ensures Contents([e]) == e.content && ToolCalls([e]) == e.toolCalls && Responses([e]) == e.response
    ensures Finishes([e]) == (if e.done then [FinishReason(e)] else []) && Stops([e]) == (if e.done then ["stop"] else [])
  {
    assert [e][1..] == [] && Front([e]) == [];
    assert [] + e.content == e.content && [] + e.toolCalls == e.toolCalls && [] + e.response == e.response;
  }

  // ---------------------------------------------------------------------------
  // The shape of the stream
  // ---------------------------------------------------------------------------

  /** A chunk of this reply with exactly one choice and no usage. */
  predicate IsPart(head: Head, kind: string, f: Frame)
  {
    && f.Some? && f.value.Part?
    && f.value.chunk.head == head && f.value.chunk.kind == kind
    && |f.value.chunk.choices| == 1 && f.value.chunk.usage == None
  }

  ghost predicate AllParts(head: Head, kind: string, frames: seq<Frame>)
  {
    forall i :: 0 <= i < |frames| ==> IsPart(head, kind, frames[i])
  }

  /** The last of the events that are done, if any. */
  ghost predicate IsLastDone(events: seq<Event>, k: nat)
  {
    k < |events| && events[k].done && forall j :: k < j < |events| ==> !events[j].done
  }

  lemma {:induction false} LastUsageIsLastDone(parse: ParseInt, events: seq<Event>) returns (k: nat)
    requires AllHandled(parse, events)
    ensures LastUsage(parse, events).Some? <==> exists j :: 0 <= j < |events| && events[j].done
    ensures LastUsage(parse, events).Some? ==> (
      var usage := LastUsage(parse, events).value;
      && IsLastDone(events, k)
      && ToInt(parse, events[k].promptEval) == Some(usage.prompt) && ToInt(parse, events[k].eval) == Some(usage.completion)
      && usage.total == usage.prompt + usage.completion)
  {
    k := 0;
    if events != [] {
      assert Last(events) in events;
      if Last(events).done {
        k := |events| - 1;
      } else {
        k := LastUsageIsLastDone(parse, Front(events));
        assert LastUsage(parse, events).Some? ==> events[k] == Front(events)[k];
        forall j | 0 <= j < |events| && events[j].done
          ensures LastUsage(parse, events).Some?
        {
          assert Front(events)[j].done;
        }
      }
    }
  }

  lemma {:induction false} TranslateAllShape(head: Head, parse: ParseInt, events: seq<Event>)
    requires AllHandled(parse, events)
    ensures AllParts(head, "chat.completion.chunk", TranslateAll(head, parse, events))
  {
    if events != [] {
      TranslateAllShape(head, parse, Front(events));
      assert Last(events) in events;
      assert AllParts(head, "chat.completion.chunk", Translate(head, parse, Last(events)));
    }
  }

  lemma {:induction false} CompletionAllShape(head: Head, events: seq<Event>)
    requires AllReadable(events)
    ensures AllParts(head, "text_completion", CompletionAll(head, events))
    ensures |CompletionAll(head, events)| == |events|
  {
    if events != [] {
      CompletionAllShape(head, Front(events));
      assert Last(events) in events;
    }
  }

  /** Ordinary chunks, then an error or a usage chunk without choices or neither, then one `[DONE]`. */
  ghost predicate WellShaped(head: Head, kind: string, frames: seq<Frame>)
  {
    var n := |frames|;
    && n >= 1 && frames[n - 1] == None
    && (|| AllParts(head, kind, frames[..n - 1])
        || (n >= 2 && AllParts(head, kind, frames[..n - 2]) && IsClosing(head, frames[n - 2])))
  }

  predicate IsClosing(head: Head, f: Frame)
  {
    && f.Some? && !f.value.Raised?
    && (f.value.Failure? || (f.value.chunk.usage.Some? && f == UsageChunk(head, f.value.chunk.usage.value)))
  }

  /** Exactly one `[DONE]`, at the end; nothing but it follows an error; usage only at the end, in
      a chunk without choices, and only there. */
  lemma {:induction false} ChatShape(head: Head, parse: ParseInt, includeUsage: bool, events: seq<Event>)
    requires AllHandled(parse, BeforeError(events))
    ensures WellShaped(head, "chat.completion.chunk", ChatFrames(head, parse, includeUsage, events))
    ensures ChatFrames(head, parse, includeUsage, events)[0]
      == Some(Part(Chunk(head, "chat.completion.chunk", [Choice(Delta(Some("assistant"), Some([]), None), None)], None)))
  {
    var before := [Opening(head)] + TranslateAll(head, parse, BeforeError(events));
    TranslateAllShape(head, parse, BeforeError(events));
    assert AllParts(head, "chat.completion.chunk", before);
    EndShape(head, "chat.completion.chunk", before, ChatEnd(head, parse, includeUsage, events));
  }

  lemma EndShape(head: Head, kind: string, before: seq<Frame>, end: seq<Frame>)
    requires AllParts(head, kind, before)
    requires 1 <= |end| <= 2 && Last(end) == None && (|end| == 2 ==> IsClosing(head, end[0]))
    ensures WellShaped(head, kind, before + end)
  {
    assert (before + end)[..|before|] == before;
  }

  lemma {:induction false} CompletionShape(head: Head, events: seq<Event>)
    requires AllReadable(BeforeError(events))
    ensures WellShaped(head, "text_completion", CompletionFrames(head, events))
    ensures NoUsage(CompletionFrames(head, events))
  {
    var before := CompletionAll(head, BeforeError(events));
    CompletionAllShape(head, BeforeError(events));
    PartsHaveNoUsage(head, "text_completion", before);
    EndShape(head, "text_completion", before, CompletionEnd(events));
    assert NoUsage(CompletionEnd(events));
  }

  ghost predicate NoUsage(frames: seq<Frame>)
  {
    forall f :: f in frames ==> UsageIn(f) == None
  }

  function UsageIn(f: Frame): Option<Usage>
  {
    if f.Some? && f.value.Part? then f.value.chunk.usage else None
  }

  lemma PartsHaveNoUsage(head: Head, kind: string, frames: seq<Frame>)
    requires AllParts(head, kind, frames)
    ensures NoUsage(frames)
  {
    forall f | f in frames
      ensures UsageIn(f) == None
    {
      var i :| 0 <= i < |frames| && frames[i] == f;
      assert IsPart(head, kind, frames[i]);
    }
  }

  // ---------------------------------------------------------------------------
  // The client's side
  // ---------------------------------------------------------------------------

  /** Section 9.2.6 of the WHATWG HTML Living Standard, byte by byte: the line being read,
      whether a carriage return has just ended a line, the data buffer, the dispatched events. */
  datatype Client = Client(line: seq<Byte>, afterReturn: bool, data: seq<Byte>, messages: seq<seq<Byte>>)

  const CONNECTED := Client([], false, [], [])

  function ColonIndex(line: seq<Byte>): (i: nat)
    ensures i <= |line|
  {
    if line == [] || line[0] == COLON then 0 else 1 + ColonIndex(line[1..])
  }

  function FieldValue(line: seq<Byte>): seq<Byte>
  {
    var i := ColonIndex(line);
    if i == |line| then []
    else if i + 1 < |line| && line[i + 1] == SPACE then line[i + 2..]
    else line[i + 1..]
  }

  function EndLine(c: Client): Client
  {
    if c.line == [] then
      if c.data == [] then c else c.(data := [], messages := c.messages + [Front(c.data)])
    else if c.line[..ColonIndex(c.line)] == DATA then
      c.(line := [], data := c.data + FieldValue(c.line) + [NEWLINE])
    else
      c.(line := [])
  }

  function ReadByte(c: Client, b: Byte): Client
  {
    if b == NEWLINE && c.afterReturn then c.(afterReturn := false)
    else if b == NEWLINE || b == RETURN then EndLine(c).(afterReturn := b == RETURN)
    else c.(line := c.line + [b], afterReturn := false)
  }

  function ReadBytes(c: Client, s: seq<Byte>): Client
  {
    if s == [] then c else ReadByte(ReadBytes(c, Front(s)), Last(s))
  }

  lemma {:induction false} ReadBytesAppend(c: Client, a: seq<Byte>, b: seq<Byte>)
    ensures ReadBytes(c, a + b) == ReadBytes(ReadBytes(c, a), b)
  {
    if b == [] {
      assert a + b == a;
    } else {
      FrontOfAppend(a, b);
      ReadBytesAppend(c, a, Front(b));
    }
  }

  /** One line of text: section 7 of RFC 8259 keeps control characters out of JSON strings. */
  ghost predicate OneLine(s: seq<Byte>)
  {
    NEWLINE !in s && RETURN !in s
  }

  lemma {:induction false} ReadText(c: Client, s: seq<Byte>)
    requires OneLine(s) && !c.afterReturn
    ensures ReadBytes(c, s) == c.(line := c.line + s)
  {
    if s != [] {
      ReadText(c, Front(s));
      assert s == Front(s) + [Last(s)];
      assert c.line + s == c.line + Front(s) + [Last(s)];
    } else {
      assert c.line + s == c.line;
    }
  }

  lemma DataField(payload: seq<Byte>)
    ensures var line := DATA + [COLON, SPACE] + payload;
      line[..ColonIndex(line)] == DATA && FieldValue(line) == payload
  {
    var line := DATA + [COLON, SPACE] + payload;
    assert line[1..][1..][1..][1..] == [COLON, SPACE] + payload;
    assert ColonIndex(line[1..][1..][1..][1..]) == 0;
    assert ColonIndex(line[1..][1..][1..]) == 1;
    assert ColonIndex(line[1..][1..]) == 2;
    assert ColonIndex(line[1..]) == 3;
    assert line[4..][1..] == [SPACE] + payload;
  }

  lemma ReadNewline(c: Client)
    requires !c.afterReturn
    ensures ReadBytes(c, [NEWLINE]) == EndLine(c).(afterReturn := false)
  {
    assert Front([NEWLINE]) == [];
  }

  /** One frame dispatches exactly its payload. */
  lemma ReadSse(json: Serializer, c: Client, f: Frame)
    requires Idle(c) && Sendable(json, f) && OneLine(Payload(json, f).value)
    ensures ReadBytes(c, Sse(json, f)) == c.(messages := c.messages + [Payload(json, f).value])
  {
    var payload := Payload(json, f).value;
    var line := DATA + [COLON, SPACE] + payload;
    SplitSse(line);
    ReadBytesAppend(c, line + [NEWLINE], [NEWLINE]);
    ReadBytesAppend(c, line, [NEWLINE]);
    ReadText(c, line);
    assert c.line + line == line;
    DataField(payload);
    DataLine(c, line, payload);
  }

  lemma SplitSse(line: seq<Byte>)
    ensures line + [NEWLINE, NEWLINE] == line + [NEWLINE] + [NEWLINE]
  {
  }

  /** On the wire: `data: `, the payload and an empty line; the end is `data: [DONE]`. */
  lemma WireFormat(json: Serializer, reply: Reply)
    requires !reply.Raised? && json(reply).Some?
    ensures Sse(json, Some(reply)) == [100, 97, 116, 97, 58, 32] + json(reply).value + [10, 10]
    ensures Sse(json, None) == [100, 97, 116, 97, 58, 32, 91, 68, 79, 78, 69, 93, 10, 10]
  {
  }

  /** Between two frames. */
  ghost predicate Idle(c: Client)
  {
    c.line == [] && !c.afterReturn && c.data == []
  }

  lemma DataLine(c: Client, line: seq<Byte>, payload: seq<Byte>)
    requires Idle(c) && line != [] && line[..ColonIndex(line)] == DATA && FieldValue(line) == payload
    ensures ReadBytes(ReadBytes(c.(line := line), [NEWLINE]), [NEWLINE]) == c.(messages := c.messages + [payload])
  {
    var one := c.(line := line);
    ReadNewline(one);
    var two := EndLine(one);
    assert [] + payload + [NEWLINE] == payload + [NEWLINE];
    assert two == c.(data := payload + [NEWLINE]);
    ReadNewline(two);
    assert Front(payload + [NEWLINE]) == payload;
  }

  function Payloads(json: Serializer, frames: seq<Frame>): seq<seq<Byte>>
    requires AllSendable(json, frames)
  {
    if frames == [] then []
    else
      assert Sendable(json, Last(frames));
      Payloads(json, Front(frames)) + [Payload(json, Last(frames)).value]
  }

  ghost predicate WritesOneLine(json: Serializer)
  {
    forall f: Frame :: Sendable(json, f) ==> OneLine(Payload(json, f).value)
  }

  /** The framing round trip: the client receives exactly the payloads, in order. */
  lemma {:induction false} ClientReceives(json: Serializer, frames: seq<Frame>)
    requires WritesOneLine(json) && AllSendable(json, frames)
    ensures ReadBytes(CONNECTED, Flatten(Wire(json, frames))) == CONNECTED.(messages := Payloads(json, frames))
  {
    if frames != [] {
      ClientReceives(json, Front(frames));
      var before, last := Wire(json, Front(frames)), Sse(json, Last(frames));
      FlattenAppend(before, [last]);
      FlattenOne(last);
      ReadBytesAppend(CONNECTED, Flatten(before), last);
      ReadSse(json, ReadBytes(CONNECTED, Flatten(before)), Last(frames));
    }
  }

  lemma FlattenOne<T>(s: seq<T>)
    ensures Flatten([s]) == s
  {
    assert [s][..0] == [];
  }

  /** The client's JSON parser undoes the serializer; `[DONE]` is recognised as the end. */
  type Parser = seq<Byte> -> Frame

  ghost predicate Parses(read: Parser, json: Serializer)
  {
    read(DONE) == None && forall reply: Reply :: json(reply).Some? && !reply.Raised? ==> read(json(reply).value) == Some(reply)
  }

  function ParseAll(read: Parser, messages: seq<seq<Byte>>): seq<Frame>
  {
    if messages == [] then [] else ParseAll(read, Front(messages)) + [read(Last(messages))]
  }

  lemma {:induction false} ParsesBack(read: Parser, json: Serializer, frames: seq<Frame>)
    requires Parses(read, json) && AllSendable(json, frames)
    ensures ParseAll(read, Payloads(json, frames)) == frames
  {
    if frames != [] {
      assert Last(frames) in frames;
      ParsesBack(read, json, Front(frames));
      var before := Payloads(json, Front(frames));
      assert Front(before + [Payload(json, Last(frames)).value]) == before;
    }
  }

  /** What a client reads from the bytes it was sent. */
  function Received(read: Parser, out: seq<seq<Byte>>): seq<Frame>
  {
    ParseAll(read, ReadBytes(CONNECTED, Flatten(out)).messages)
  }

  /** The client recovers exactly the frames before the first one that raises. */
  lemma {:induction false} FramesArrive(json: Serializer, read: Parser, frames: seq<Frame>)
    requires WritesOneLine(json) && Parses(read, json)
    ensures Received(read, Transmission(json, frames)) == Until(json, frames)
  {
    var sent := Until(json, frames);
    UntilSendable(json, frames);
    ClientReceives(json, sent);
    ParsesBack(read, json, sent);
  }

  // ---------------------------------------------------------------------------
  // When a stream is complete
  // ---------------------------------------------------------------------------

  /** `[DONE]` is the last of the frames and nowhere else. */
  ghost predicate DoneIsLast(frames: seq<Frame>)
  {
    frames != [] && forall i :: 0 <= i < |frames| ==> (frames[i] == None <==> i == |frames| - 1)
  }

  lemma {:induction false} TranslateAllHasNoDone(head: Head, parse: ParseInt, events: seq<Event>)
    ensures None !in TranslateAll(head, parse, events)
  {
    if events != [] {
      TranslateAllHasNoDone(head, parse, Front(events));
      assert None !in Translate(head, parse, Last(events));
    }
  }

  lemma {:induction false} CompletionAllHasNoDone(head: Head, events: seq<Event>)
    ensures None !in CompletionAll(head, events)
  {
    if events != [] {
      CompletionAllHasNoDone(head, Front(events));
    }
  }

  lemma DoneEnds(before: seq<Frame>, end: seq<Frame>)
    requires None !in before && 1 <= |end| <= 2 && Last(end) == None && (|end| == 2 ==> end[0] != None)
    ensures DoneIsLast(before + end)
  {
  }

  lemma {:induction false} ChatDone(head: Head, parse: ParseInt, includeUsage: bool, events: seq<Event>)
    ensures DoneIsLast(ChatFrames(head, parse, includeUsage, events))
  {
    TranslateAllHasNoDone(head, parse, BeforeError(events));
    DoneEnds([Opening(head)] + TranslateAll(head, parse, BeforeError(events)), ChatEnd(head, parse, includeUsage, events));
  }

  lemma {:induction false} CompletionDone(head: Head, events: seq<Event>)
    ensures DoneIsLast(CompletionFrames(head, events))
  {
    CompletionAllHasNoDone(head, BeforeError(events));
    DoneEnds(CompletionAll(head, BeforeError(events)), CompletionEnd(events));
  }

  /** What was sent ends with `[DONE]` exactly if no frame raised; otherwise it has none at all. */
  lemma {:induction false} DoneIffAllSent(json: Serializer, frames: seq<Frame>)
    requires DoneIsLast(frames)
    ensures var sent := Until(json, frames);
      && (sent != [] && Last(sent) == None <==> AllSendable(json, frames))
      && (!AllSendable(json, frames) ==> None !in sent)
  {
    var sent := Until(json, frames);
    UntilSendable(json, frames);
    if !AllSendable(json, frames) {
      UntilFailsNext(json, frames);
      forall i | 0 <= i < |sent|
        ensures sent[i] != None
      {
        assert sent[i] == frames[i];
      }
    }
  }

  // ---------------------------------------------------------------------------
  // End to end
  // ---------------------------------------------------------------------------

  lemma SendableAppend(json: Serializer, a: seq<Frame>, b: seq<Frame>)
    ensures AllSendable(json, a + b) <==> AllSendable(json, a) && AllSendable(json, b)
  {
    assert forall f :: f in a ==> f in a + b;
    assert forall f :: f in b ==> f in a + b;
  }

  lemma {:induction false} SendableIsHandled(json: Serializer, head: Head, parse: ParseInt, events: seq<Event>)
    requires AllSendable(json, TranslateAll(head, parse, events))
    ensures AllHandled(parse, events)
  {
    if events != [] {
      var front, last := TranslateAll(head, parse, Front(events)), Translate(head, parse, Last(events));
      SendableAppend(json, front, last);
      SendableIsHandled(json, head, parse, Front(events));
      assert RAISED in last <==> !Handled(parse, Last(events));
      assert RAISED !in last;
      assert events == Front(events) + [Last(events)];
    }
  }

  /** Reading more never takes text back. */
  lemma {:induction false} ReadGrows(r: Reading, frames: seq<Frame>)
    ensures r.text <= Read(r, frames).text
    ensures Read(r, frames).ended <==> r.ended || None in frames
  {
    if frames != [] {
      ReadGrows(r, Front(frames));
      assert frames == Front(frames) + [Last(frames)];
    }
  }

  /** From the bytes of the upstream, however they were cut, to what the client understands of the
      bytes it is sent: everything, or, if the generator raises, a part that is not marked as ended. */
  lemma {:induction false} EndToEnd(decode: Decoder<Event>, json: Serializer, read: Parser, parse: ParseInt, head: Head, includeUsage: bool,
      chunks: seq<seq<Byte>>, out: seq<seq<Byte>>, raised: bool)
    requires WritesOneLine(json) && Parses(read, json)
    requires Sent(json, ChatFrames(head, parse, includeUsage, Events(decode, Flatten(chunks))), out, raised)
    ensures var got := Read(NOTHING, Received(read, out));
      && (got.ended <==> !raised)
      && (!raised ==> got == Meaning(parse, includeUsage, Events(decode, Flatten(chunks))))
  {
    var events := Events(decode, Flatten(chunks));
    var frames := ChatFrames(head, parse, includeUsage, events);
    var sent := Until(json, frames);
    FramesArrive(json, read, frames);
    ChatDone(head, parse, includeUsage, events);
    DoneIffAllSent(json, frames);
    ReadGrows(NOTHING, sent);
    UntilSendable(json, frames);
    if !raised {
      var before := TranslateAll(head, parse, BeforeError(events));
      SendableAppend(json, [Opening(head)] + before, ChatEnd(head, parse, includeUsage, events));
      SendableAppend(json, [Opening(head)], before);
      SendableIsHandled(json, head, parse, BeforeError(events));
      ChatMeaning(head, parse, includeUsage, events);
      assert Last(sent) in sent;
    }
  }
}
