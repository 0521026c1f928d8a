/** When a translated stream comes to its regular end: which records the generators can turn into
    frames, with a serializer that raises exactly on text that UTF-8 cannot encode. */
module StreamEnds {
  import opened Common
  import opened Sequences
  import opened Ndjson
  import opened Tokens
  import opened ChatStream

  /** Text that UTF-8 can encode: no lone surrogate. */
  predicate Encodable(text: Text)
  {
    forall c :: c in text ==> !(0xD800 <= c <= 0xDFFF)
  }

  predicate EncodableChoice(c: Choice)
  {
    Encodable(OrEmpty(c.delta.content)) && forall call :: call in OrEmpty(c.delta.toolCalls) ==> Encodable(call)
  }

  predicate EncodableReply(reply: Reply)
  {
    match reply
    case Part(chunk) => Encodable(chunk.head.model) && forall c :: c in chunk.choices ==> EncodableChoice(c)
    case Failure(message, code) => Encodable(message) && Encodable(code)
    case Raised => false
  }

  /** The serializer raises exactly on text that cannot be encoded. */
  ghost predicate IsUtf8(json: Serializer)
  {
    forall reply: Reply :: json(reply).Some? <==> EncodableReply(reply)
  }

  /** A record that passes through the chat generator. */
  predicate Passes(parse: ParseInt, e: Event)
  {
    Handled(parse, e) && Encodable(e.content) && forall call :: call in e.toolCalls ==> Encodable(call)
  }

  lemma PassesExactly(json: Serializer, head: Head, parse: ParseInt, e: Event)
    requires IsUtf8(json) && Encodable(head.model)
    ensures AllSendable(json, Translate(head, parse, e)) <==> Passes(parse, e)
  {
    var frames := Translate(head, parse, e);
    if !e.readable || e.odd {
      assert RAISED in frames;
    } else {
      SendableAppend(json, Body(head, e), Finish(head, parse, e));
      BodySendable(json, head, e);
      FinishSendable(json, head, parse, e);
    }
  }

  lemma BodySendable(json: Serializer, head: Head, e: Event)
    requires IsUtf8(json) && Encodable(head.model)
    ensures AllSendable(json, Body(head, e)) <==> Encodable(e.content) && forall call :: call in e.toolCalls ==> Encodable(call)
  {
    var delta := Delta(None, ContentOf(e.content), ToolsOf(e.toolCalls));
    var choice := Choice(delta, None);
    assert OrEmpty(delta.content) == e.content && OrEmpty(delta.toolCalls) == e.toolCalls;
    if delta != EMPTY {
      assert ChatChunk(head, delta, None) in Body(head, e);
      assert choice in [choice];
    }
  }

  lemma FinishSendable(json: Serializer, head: Head, parse: ParseInt, e: Event)
    requires IsUtf8(json) && Encodable(head.model)
    ensures AllSendable(json, Finish(head, parse, e)) <==> (e.done ==> UsageOf(parse, e).Some?)
  {
    if e.done && UsageOf(parse, e).None? {
      assert RAISED in Finish(head, parse, e);
    }
  }

  lemma {:induction false} AllPassExactly(json: Serializer, head: Head, parse: ParseInt, events: seq<Event>)
    requires IsUtf8(json) && Encodable(head.model)
    ensures AllSendable(json, TranslateAll(head, parse, events)) <==> forall e :: e in events ==> Passes(parse, e)
  {
    if events != [] {
      AllPassExactly(json, head, parse, Front(events));
      SendableAppend(json, TranslateAll(head, parse, Front(events)), Translate(head, parse, Last(events)));
      PassesExactly(json, head, parse, Last(events));
      assert events == Front(events) + [Last(events)];
    }
  }

  /** The chat stream is complete, with its `[DONE]`, exactly if every record before the first error
      has the expected shape, counts that are numbers and text that can be encoded, and the error
      record, if there is one, can be encoded. */
  lemma {:induction false} ChatCompletes(json: Serializer, head: Head, parse: ParseInt, includeUsage: bool, events: seq<Event>)
    requires IsUtf8(json)
    ensures AllSendable(json, ChatFrames(head, parse, includeUsage, events)) <==> (
      && Encodable(head.model)
      && (forall e :: e in BeforeError(events) ==> Passes(parse, e))
      && (FirstError(events).Some? ==> Encodable(FirstError(events).value.error) && Encodable(ErrorCode(FirstError(events).value))))
  {
    var before, end := TranslateAll(head, parse, BeforeError(events)), ChatEnd(head, parse, includeUsage, events);
    OpeningSendable(json, head);
    if Encodable(head.model) {
      AllPassExactly(json, head, parse, BeforeError(events));
    } else {
      assert Opening(head) in [Opening(head)];
    }
    SendableAppend(json, [Opening(head)], before);
    SendableAppend(json, [Opening(head)] + before, end);
    if FirstError(events).Some? {
      assert end == [StreamError(FirstError(events).value), None];
      assert StreamError(FirstError(events).value) in end;
    }
  }

  /** A record whose text is one lone surrogate ends the stream without an error and without `[DONE]`. */
  lemma {:induction false} SurrogateCutsStream(json: Serializer, head: Head, parse: ParseInt, includeUsage: bool, e: Event)
    requires IsUtf8(json) && Encodable(head.model)
    requires e.readable && !e.odd && e.error == [] && e.content == [0xD800]
    ensures Sendable(json, Opening(head))
    ensures Transmission(json, ChatFrames(head, parse, includeUsage, [e])) == [Sse(json, Opening(head))]
  {
    var frames, f := ChatFrames(head, parse, includeUsage, [e]), Body(head, e)[0];
    OnlyEvent(head, parse, includeUsage, e);
    BodySendable(json, head, e);
    assert 0xD800 in e.content;
    assert Body(head, e) == [f] && !Sendable(json, f);
    OpeningSendable(json, head);
    UntilStops(json, [Opening(head)], f, frames);
    WireOne(json, Opening(head));
  }

  lemma OpeningSendable(json: Serializer, head: Head)
    requires IsUtf8(json)
    ensures Sendable(json, Opening(head)) <==> Encodable(head.model)
  {
    var reply := Opening(head).value;
    assert EncodableReply(reply) <==> Encodable(head.model) by {
      assert OrEmpty(reply.chunk.choices[0].delta.content) == [];
    }
  }

  lemma WireOne(json: Serializer, f: Frame)
    requires Sendable(json, f)
    ensures Wire(json, [f]) == [Sse(json, f)]
  {
    assert Front([f]) == [];
  }

  lemma OnlyEvent(head: Head, parse: ParseInt, includeUsage: bool, e: Event)
    requires e.readable && !e.odd && e.error == [] && e.content != []
    ensures [Opening(head)] + [Body(head, e)[0]] <= ChatFrames(head, parse, includeUsage, [e])
  {
    assert [e][1..] == [] && Front([e]) == [];
    assert BeforeError([e]) == [e];
    assert TranslateAll(head, parse, [e]) == Translate(head, parse, e);
  }

  lemma CompletionPassesExactly(json: Serializer, head: Head, e: Event)
    requires IsUtf8(json)
    ensures Sendable(json, CompletionFrame(head, e)) <==> e.readable && Encodable(head.model) && Encodable(e.response)
  {
    var f := CompletionFrame(head, e);
    if e.readable {
      assert f.value.chunk.choices[0] in f.value.chunk.choices;
      assert OrEmpty(ContentOf(e.response)) == e.response;
    }
  }

  lemma {:induction false} AllCompletionsExactly(json: Serializer, head: Head, events: seq<Event>)
    requires IsUtf8(json)
    ensures AllSendable(json, CompletionAll(head, events)) <==> forall e :: e in events ==> e.readable && Encodable(head.model) && Encodable(e.response)
  {
    if events != [] {
      AllCompletionsExactly(json, head, Front(events));
      CompletionPassesExactly(json, head, Last(events));
      SendableAppend(json, CompletionAll(head, Front(events)), [CompletionFrame(head, Last(events))]);
      assert events == Front(events) + [Last(events)];
      assert CompletionFrame(head, Last(events)) in [CompletionFrame(head, Last(events))];
    }
  }

  /** The same for completions, which read no usage and no message. */
  lemma {:induction false} CompletionCompletes(json: Serializer, head: Head, events: seq<Event>)
    requires IsUtf8(json)
    ensures AllSendable(json, CompletionFrames(head, events)) <==> (
      && (forall e :: e in BeforeError(events) ==> e.readable && Encodable(head.model) && Encodable(e.response))
      && (FirstError(events).Some? ==> Encodable(FirstError(events).value.error) && Encodable(ErrorCode(FirstError(events).value))))
  {
    AllCompletionsExactly(json, head, BeforeError(events));
    SendableAppend(json, CompletionAll(head, BeforeError(events)), CompletionEnd(events));
    if FirstError(events).Some? {
      assert StreamError(FirstError(events).value) in CompletionEnd(events);
    }
  }

  /** So the client of such a stream is sent `[DONE]` exactly under these conditions. */
  lemma {:induction false} ChatEndsWithDone(json: Serializer, head: Head, parse: ParseInt, includeUsage: bool, events: seq<Event>)
    requires IsUtf8(json)
    ensures None in Until(json, ChatFrames(head, parse, includeUsage, events)) <==> (
      && Encodable(head.model)
      && (forall e :: e in BeforeError(events) ==> Passes(parse, e))
      && (FirstError(events).Some? ==> Encodable(FirstError(events).value.error) && Encodable(ErrorCode(FirstError(events).value))))
  {
    var frames := ChatFrames(head, parse, includeUsage, events);
    ChatDone(head, parse, includeUsage, events);
    DoneIffAllSent(json, frames);
    ChatCompletes(json, head, parse, includeUsage, events);
    if AllSendable(json, frames) {
      assert Last(Until(json, frames)) in Until(json, frames);
    }
  }

  lemma {:induction false} CompletionEndsWithDone(json: Serializer, head: Head, events: seq<Event>)
    requires IsUtf8(json)
    ensures None in Until(json, CompletionFrames(head, events)) <==> (
      && (forall e :: e in BeforeError(events) ==> e.readable && Encodable(head.model) && Encodable(e.response))
      && (FirstError(events).Some? ==> Encodable(FirstError(events).value.error) && Encodable(ErrorCode(FirstError(events).value))))
  {
    var frames := CompletionFrames(head, events);
    CompletionDone(head, events);
    DoneIffAllSent(json, frames);
    CompletionCompletes(json, head, events);
    if AllSendable(json, frames) {
      assert Last(Until(json, frames)) in Until(json, frames);
    }
  }
}
