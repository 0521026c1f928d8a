/** Token counts in upstream records. A count is read as `int(value or 0)`, which not every JSON
    value survives: the conversion raises for text that is no number, for lists, objects and
    numbers that are not finite. */
module Tokens {
  import opened Common
  import opened Ndjson

  /** A unicode string; a code point may be a lone surrogate, as JSON escapes allow. */
  type CodePoint = c: int | 0 <= c <= 0x10FFFF
  type Text = seq<CodePoint>

  datatype Value =
    | Absent
    | Null
    | Truth(holds: bool)
    | Whole(number: int)
    | Fraction(x: real)
    | NotFinite
    | Letters(text: Text)
    | Array(size: nat)
    | Object(size: nat)

  /** What Python counts as false. */
  predicate IsFalsy(v: Value)
  {
    match v
    case Absent | Null => true
    case Truth(holds) => !holds
    case Whole(number) => number == 0
    case Fraction(x) => x == 0.0
    case NotFinite => false
    case Letters(text) => text == []
    case Array(size) => size == 0
    case Object(size) => size == 0
  }

  /** `int` of a text, None where it raises. */
  type ParseInt = Text -> Option<int>

  /** `int(value or 0)`, None where it raises. */
  function ToInt(parse: ParseInt, v: Value): Option<int>
  {
    if IsFalsy(v) then Some(0)
    else match v
      case Truth(_) => Some(1)
      case Whole(number) => Some(number)
      case Fraction(x) => Some(Truncate(x))
      case Letters(text) => parse(text)
      case _ => None
  }

  /** What the decoder makes of some bytes; `Crash` is an exception that nobody catches. */
  datatype Decoded =
    | Malformed
    | Crash
    | NoRecord
    | Record(done: bool, evalCount: Value, promptEvalCount: Value)

  type JsonDecoder = seq<Byte> -> Decoded

  /** The tokens of a whole answer, None where counting raises. */
  function CountTokens(decode: JsonDecoder, parse: ParseInt, payload: seq<Byte>): Option<nat>
  {
    match decode(payload)
    case Malformed | NoRecord => Some(0)
    case Crash => None
    case Record(_, evalCount, promptEvalCount) =>
      var a, b := ToInt(parse, evalCount), ToInt(parse, promptEvalCount);
      if a.Some? && b.Some? then Some(Max(0, a.value + b.value)) else None
  }

  const BRACE: Byte := 123

  /** The tokens a line of a chunk contributes; only records that say they are done count. */
  function LineTokens(decode: JsonDecoder, parse: ParseInt, line: seq<Byte>): Option<int>
  {
    var text := Strip(line);
    if text == [] || text[0] != BRACE then Some(0)
    else match decode(text)
      case Malformed | NoRecord => Some(0)
      case Crash => None
      case Record(done, evalCount, promptEvalCount) =>
        if !done then Some(0)
        else
          var a, b := ToInt(parse, evalCount), ToInt(parse, promptEvalCount);
          if a.Some? && b.Some? then Some(a.value + b.value) else None
  }

  function SumTokens(decode: JsonDecoder, parse: ParseInt, lines: seq<seq<Byte>>): Option<int>
  {
    if lines == [] then Some(0)
    else
      var before, last := SumTokens(decode, parse, Front(lines)), LineTokens(decode, parse, Last(lines));
      if before.Some? && last.Some? then Some(before.value + last.value) else None
  }

  /** The tokens of one chunk of a stream. */
  function StreamTokens(decode: JsonDecoder, parse: ParseInt, chunk: seq<Byte>): Option<int>
  {
    SumTokens(decode, parse, Lines(chunk))
  }

  /** What a count is worth: nothing if it is missing, null, false or empty; numbers towards zero. */
  lemma CountIsWorth(parse: ParseInt, holds: bool, number: int, x: real, text: Text)
    ensures ToInt(parse, Absent) == ToInt(parse, Null) == ToInt(parse, Letters([])) == ToInt(parse, Array(0)) == ToInt(parse, Object(0)) == Some(0)
    ensures ToInt(parse, Truth(holds)) == Some(if holds then 1 else 0) && ToInt(parse, Whole(number)) == Some(number)
    ensures text != [] ==> ToInt(parse, Letters(text)) == parse(text)
    ensures ToInt(parse, Fraction(x)).Some? && var n := ToInt(parse, Fraction(x)).value;
      if x >= 0.0 then n as real <= x < n as real + 1.0 else n as real - 1.0 < x <= n as real
  {
  }

  /** What is counted of a record: both counts, of a whole answer at least 0 and in any case, of a line of a
      stream only if it looks like an object and says that it is done. */
  lemma {:induction false} RecordIsWorth(decode: JsonDecoder, parse: ParseInt, payload: seq<Byte>, done: bool, evalCount: Value, promptEvalCount: Value, a: int, b: int)
    requires decode(payload) == Record(done, evalCount, promptEvalCount) && Strip(payload) == payload && payload != []
    requires ToInt(parse, evalCount) == Some(a) && ToInt(parse, promptEvalCount) == Some(b)
    ensures CountTokens(decode, parse, payload) == Some(if a + b < 0 then 0 else a + b)
    ensures LineTokens(decode, parse, payload) == Some(if done && payload[0] == 123 then a + b else 0)
  {
  }

  /** A count that cannot be converted. */
  predicate IsUncountable(parse: ParseInt, v: Value)
  {
    || v.NotFinite?
    || (v.Array? && v.size > 0)
    || (v.Object? && v.size > 0)
    || (v.Letters? && v.text != [] && parse(v.text).None?)
  }

  lemma UncountableMeans(parse: ParseInt, v: Value)
    ensures ToInt(parse, v).None? <==> IsUncountable(parse, v)
  {
  }

  /** A record with a count that cannot be converted. */
  predicate HasUncountable(parse: ParseInt, d: Decoded)
  {
    d.Record? && (IsUncountable(parse, d.evalCount) || IsUncountable(parse, d.promptEvalCount))
  }

  /** Counting a whole answer raises exactly if decoding does, or a count of its record cannot be converted. */
  lemma {:induction false} AnswerFailsExactly(decode: JsonDecoder, parse: ParseInt, payload: seq<Byte>)
    ensures CountTokens(decode, parse, payload).None? <==> decode(payload) == Crash || HasUncountable(parse, decode(payload))
  {
    var d := decode(payload);
    if d.Record? {
      UncountableMeans(parse, d.evalCount);
      UncountableMeans(parse, d.promptEvalCount);
    }
  }

  /** The line looks like an object. */
  predicate Opens(line: seq<Byte>)
  {
    Strip(line) != [] && Strip(line)[0] == BRACE
  }

  /** A line that looks like an object and is done with a count that cannot be converted, or crashes the decoder. */
  predicate LineFails(decode: JsonDecoder, parse: ParseInt, line: seq<Byte>)
  {
    Opens(line) && var d := decode(Strip(line)); d == Crash || (HasUncountable(parse, d) && d.done)
  }

  lemma {:induction false} LineFailsExactly(decode: JsonDecoder, parse: ParseInt, line: seq<Byte>)
    ensures LineTokens(decode, parse, line).None? <==> LineFails(decode, parse, line)
  {
    var d := decode(Strip(line));
    if d.Record? {
      UncountableMeans(parse, d.evalCount);
      UncountableMeans(parse, d.promptEvalCount);
    }
  }

  lemma {:induction false} SumFails(decode: JsonDecoder, parse: ParseInt, lines: seq<seq<Byte>>)
    ensures SumTokens(decode, parse, lines).None? <==> exists line :: line in lines && LineTokens(decode, parse, line).None?
  {
    if lines != [] {
      SumFails(decode, parse, Front(lines));
      assert lines == Front(lines) + [Last(lines)];
    }
  }

  /** Some line fails. */
  ghost predicate SomeLineFails(decode: JsonDecoder, parse: ParseInt, lines: seq<seq<Byte>>)
  {
    exists line :: line in lines && LineFails(decode, parse, line)
  }

  lemma {:induction false} SumFailsExactly(decode: JsonDecoder, parse: ParseInt, lines: seq<seq<Byte>>)
    ensures SumTokens(decode, parse, lines).None? <==> SomeLineFails(decode, parse, lines)
  {
    SumFails(decode, parse, lines);
    forall line | line in lines
      ensures LineTokens(decode, parse, line).None? <==> LineFails(decode, parse, line)
    {
      LineFailsExactly(decode, parse, line);
    }
  }

  /** Counting a chunk raises exactly if one of its lines, cut off ones at its ends included, fails. */
  lemma {:induction false} ChunkFailsExactly(decode: JsonDecoder, parse: ParseInt, chunk: seq<Byte>)
    ensures StreamTokens(decode, parse, chunk).None? <==> SomeLineFails(decode, parse, Lines(chunk))
  {
    SumFailsExactly(decode, parse, Lines(chunk));
  }
}
