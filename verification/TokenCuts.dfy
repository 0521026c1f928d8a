/** A stream is counted chunk by chunk: exactly when does the count not depend on where it is cut? */
module TokenCuts {
  import opened Common
  import opened Sequences
  import opened Ndjson
  import opened Tokens

  // ---------------------------------------------------------------------------
  // Stripping a line that is put together
  // ---------------------------------------------------------------------------

  lemma {:induction false} StripLeftAppend(u: seq<Byte>, f: seq<Byte>)
    ensures StripLeft(u + f) == if StripLeft(u) == [] then StripLeft(f) else StripLeft(u) + f
  {
    if u == [] {
      assert u + f == f;
    } else if IsSpace(u[0]) {
      assert (u + f)[1..] == u[1..] + f;
      StripLeftAppend(u[1..], f);
    }
  }

  lemma {:induction false} StripRightAppend(u: seq<Byte>, f: seq<Byte>)
    ensures StripRight(u + f) == if StripRight(f) == [] then StripRight(u) else u + StripRight(f)
  {
    if f == [] {
      assert u + f == u;
    } else if IsSpace(f[|f| - 1]) {
      assert (u + f)[..|u + f| - 1] == u + f[..|f| - 1];
      StripRightAppend(u, f[..|f| - 1]);
    }
  }

  lemma {:induction false} StripLeftDrops(s: seq<Byte>) returns (k: nat)
    ensures k <= |s| && StripLeft(s) == s[k..]
    ensures StripLeft(s) != [] ==> !IsSpace(StripLeft(s)[0])
    ensures StripRight(s[..k]) == []
  {
    k := 0;
    if s != [] && IsSpace(s[0]) {
      var j := StripLeftDrops(s[1..]);
      k := j + 1;
      assert s[1..][j..] == s[k..] && s[..k] == [s[0]] + s[1..][..j];
      StripRightAppend([s[0]], s[1..][..j]);
      assert [s[0]][..0] == [];
    }
  }

  lemma {:induction false} StripRightFirst(s: seq<Byte>)
    requires s != [] && !IsSpace(s[0])
    ensures StripRight(s) != [] && StripRight(s)[0] == s[0] && |StripRight(s)| <= |s|
  {
    if IsSpace(s[|s| - 1]) {
      StripRightFirst(s[..|s| - 1]);
    }
  }

  lemma {:induction false} StripRightShortens(s: seq<Byte>)
    ensures |StripRight(s)| <= |s|
  {
    if s != [] && IsSpace(s[|s| - 1]) {
      StripRightShortens(s[..|s| - 1]);
    }
  }

  /** How the three strips of one line relate. */
  lemma {:induction false} StripMeans(s: seq<Byte>)
    ensures Strip(s) == [] <==> StripLeft(s) == []
    ensures Strip(s) == [] <==> StripRight(s) == []
    ensures Strip(s) != [] ==> Strip(s)[0] == StripLeft(s)[0]
    ensures |Strip(s)| <= |StripLeft(s)| && |Strip(s)| <= |StripRight(s)|
  {
    var k := StripLeftDrops(s);
    var kept := StripLeft(s);
    StripRightShortens(kept);
    assert s == s[..k] + kept;
    StripRightAppend(s[..k], kept);
    if kept != [] {
      StripRightFirst(kept);
    }
  }

  lemma {:induction false} StripJoined(u: seq<Byte>, f: seq<Byte>)
    ensures Strip(u) == [] ==> Strip(u + f) == Strip(f)
    ensures Strip(f) == [] ==> Strip(u + f) == Strip(u)
    ensures Strip(u) != [] && Strip(f) != [] ==>
      Strip(u + f) != [] && Strip(u + f)[0] == Strip(u)[0] && |Strip(u + f)| >= |Strip(u)| + |Strip(f)|
  {
    StripMeans(u);
    StripMeans(f);
    StripLeftAppend(u, f);
    StripRightAppend(StripLeft(u), f);
  }

  // ---------------------------------------------------------------------------
  // One cut
  // ---------------------------------------------------------------------------

  /** The sum of two counts; an exception in one of them is an exception. */
  function Plus(a: Option<int>, b: Option<int>): Option<int>
  {
    if a.Some? && b.Some? then Some(a.value + b.value) else None
  }

  lemma {:induction false} SumAppend(decode: JsonDecoder, parse: ParseInt, x: seq<seq<Byte>>, y: seq<seq<Byte>>)
    ensures SumTokens(decode, parse, x + y) == Plus(SumTokens(decode, parse, x), SumTokens(decode, parse, y))
  {
    if y == [] {
      assert x + y == x;
    } else {
      FrontOfAppend(x, y);
      SumAppend(decode, parse, x, Front(y));
    }
  }

  lemma SumOne(decode: JsonDecoder, parse: ParseInt, line: seq<Byte>)
    ensures SumTokens(decode, parse, [line]) == LineTokens(decode, parse, line)
  {
    assert Front([line]) == [];
  }

  /** What stands before the cut in its line, and behind it. */
  function Before(a: seq<Byte>): seq<Byte>
  {
    Unfinished(a)
  }

  function Behind(b: seq<Byte>): seq<Byte>
  {
    Lines(b)[0]
  }

  lemma {:induction false} LinesOfJoined(u: seq<Byte>, b: seq<Byte>)
    requires NEWLINE !in u
    ensures Lines(u + b) == [u + Behind(b)] + Lines(b)[1..]
  {
    FirstNewlineFound(b);
    var i := FirstNewline(b);
    if i == |b| {
      assert b[..i] == b;
      NoNewline(b);
      NoNewline(u + b);
    } else {
      var line, rest := b[..i], b[i + 1..];
      SplitFirst(b, line, rest);
      assert u + b == (u + line) + [NEWLINE] + rest;
      SplitFirst(u + b, u + line, rest);
    }
  }

  lemma NoNewline(s: seq<Byte>)
    requires NEWLINE !in s
    ensures Lines(s) == [s]
  {
    FirstNewlineFound(s);
  }

  /** The lines outside the cut. */
  function Outside(a: seq<Byte>, b: seq<Byte>): seq<seq<Byte>>
  {
    Front(Lines(a)) + Lines(b)[1..]
  }

  lemma {:induction false} CutParts(decode: JsonDecoder, parse: ParseInt, a: seq<Byte>, b: seq<Byte>)
    ensures var u, f, outside := Before(a), Behind(b), SumTokens(decode, parse, Outside(a, b));
      && StreamTokens(decode, parse, a + b) == Plus(outside, LineTokens(decode, parse, u + f))
      && Plus(StreamTokens(decode, parse, a), StreamTokens(decode, parse, b))
         == Plus(outside, Plus(LineTokens(decode, parse, u), LineTokens(decode, parse, f)))
  {
    var front, u, f, rest := Front(Lines(a)), Before(a), Behind(b), Lines(b)[1..];
    CutLines(a, b);
    MiddleSum(decode, parse, front, u + f, rest);
    PiecesSum(decode, parse, front, u, f, rest);
  }

  lemma CutLines(a: seq<Byte>, b: seq<Byte>)
    ensures Lines(a) == Front(Lines(a)) + [Before(a)]
    ensures Lines(b) == [Behind(b)] + Lines(b)[1..]
    ensures Lines(a + b) == Front(Lines(a)) + ([Before(a) + Behind(b)] + Lines(b)[1..])
  {
    UnfinishedHasNoNewline(a);
    LinesAppend(a, b);
    LinesOfJoined(Before(a), b);
  }

  lemma MiddleSum(decode: JsonDecoder, parse: ParseInt, front: seq<seq<Byte>>, line: seq<Byte>, rest: seq<seq<Byte>>)
    ensures SumTokens(decode, parse, front + ([line] + rest))
      == Plus(SumTokens(decode, parse, front + rest), LineTokens(decode, parse, line))
  {
    SumAppend(decode, parse, front, [line] + rest);
    SumAppend(decode, parse, [line], rest);
    SumAppend(decode, parse, front, rest);
    SumOne(decode, parse, line);
    PlusSwaps(SumTokens(decode, parse, front), LineTokens(decode, parse, line), SumTokens(decode, parse, rest));
  }

  lemma PlusSwaps(a: Option<int>, b: Option<int>, c: Option<int>)
    ensures Plus(a, Plus(b, c)) == Plus(Plus(a, c), b)
  {
  }

  lemma PiecesSum(decode: JsonDecoder, parse: ParseInt, front: seq<seq<Byte>>, u: seq<Byte>, f: seq<Byte>, rest: seq<seq<Byte>>)
    ensures Plus(SumTokens(decode, parse, front + [u]), SumTokens(decode, parse, [f] + rest))
      == Plus(SumTokens(decode, parse, front + rest), Plus(LineTokens(decode, parse, u), LineTokens(decode, parse, f)))
  {
    SumAppend(decode, parse, front, [u]);
    SumAppend(decode, parse, [f], rest);
    SumAppend(decode, parse, front, rest);
    SumOne(decode, parse, u);
    SumOne(decode, parse, f);
  }

  /** Counting in one piece or in two gives the same. */
  predicate CutAgrees(decode: JsonDecoder, parse: ParseInt, a: seq<Byte>, b: seq<Byte>)
  {
    StreamTokens(decode, parse, a + b) == Plus(StreamTokens(decode, parse, a), StreamTokens(decode, parse, b))
  }

  /** For one decoder: exactly if a line outside the cut raises anyway, or the line that is cut counts as
      much as its two fragments. */
  lemma {:induction false} CutAgreesExactly(decode: JsonDecoder, parse: ParseInt, a: seq<Byte>, b: seq<Byte>)
    ensures var u, f := Before(a), Behind(b);
      CutAgrees(decode, parse, a, b) <==> (
        || SomeLineFails(decode, parse, Outside(a, b))
        || LineTokens(decode, parse, u + f) == Plus(LineTokens(decode, parse, u), LineTokens(decode, parse, f)))
  {
    CutParts(decode, parse, a, b);
    SumFailsExactly(decode, parse, Outside(a, b));
  }

  /** What can be checked before counting: one fragment is blank, or neither looks like an object. */
  predicate CutIsSafe(a: seq<Byte>, b: seq<Byte>)
  {
    var u, f := Before(a), Behind(b);
    Strip(u) == [] || Strip(f) == [] || (!Opens(u) && !Opens(f))
  }

  lemma {:induction false} SafeCutAgrees(decode: JsonDecoder, parse: ParseInt, a: seq<Byte>, b: seq<Byte>)
    requires CutIsSafe(a, b)
    ensures CutAgrees(decode, parse, a, b)
  {
    StripJoined(Before(a), Behind(b));
    CutAgreesExactly(decode, parse, a, b);
  }

  /** Every line that looks like an object counts one. */
  function Ones(): JsonDecoder
  {
    (text: seq<Byte>) => Record(true, Whole(1), Absent)
  }

  /** Every line that looks like an object counts its length. */
  function Lengths(): JsonDecoder
  {
    (text: seq<Byte>) => Record(true, Whole(|text|), Absent)
  }

  lemma LineCounts(parse: ParseInt, line: seq<Byte>)
    ensures LineTokens(Ones(), parse, line) == Some(if Opens(line) then 1 else 0)
    ensures LineTokens(Lengths(), parse, line) == Some(if Opens(line) then |Strip(line)| else 0)
  {
  }

  lemma {:induction false} AllCount(parse: ParseInt, lines: seq<seq<Byte>>)
    ensures SumTokens(Ones(), parse, lines).Some? && SumTokens(Lengths(), parse, lines).Some?
  {
    if lines != [] {
      AllCount(parse, Front(lines));
      LineCounts(parse, Last(lines));
    }
  }

  /** The count of a text by one of the two decoders, which never raise. */
  function Tally(decode: JsonDecoder, parse: ParseInt, s: seq<Byte>): int
  {
    match StreamTokens(decode, parse, s) case Some(n) => n case None => 0
  }

  /** The fragment before the cut looks like an object, the one behind it does not and is not blank. */
  predicate CutInObject(a: seq<Byte>, b: seq<Byte>)
  {
    Opens(Before(a)) && Strip(Behind(b)) != [] && !Opens(Behind(b))
  }

  /** Fragments are never fewer objects than their line, and if they are as many, but not safe, they are shorter. */
  lemma {:induction false} CutTallies(parse: ParseInt, a: seq<Byte>, b: seq<Byte>)
    ensures Tally(Ones(), parse, a + b) <= Tally(Ones(), parse, a) + Tally(Ones(), parse, b)
    ensures Tally(Ones(), parse, a + b) == Tally(Ones(), parse, a) + Tally(Ones(), parse, b) ==> CutIsSafe(a, b) || CutInObject(a, b)
    ensures CutIsSafe(a, b) ==> Tally(Lengths(), parse, a + b) == Tally(Lengths(), parse, a) + Tally(Lengths(), parse, b)
    ensures CutInObject(a, b) ==> Tally(Lengths(), parse, a + b) > Tally(Lengths(), parse, a) + Tally(Lengths(), parse, b)
  {
    var u, f := Before(a), Behind(b);
    CutParts(Ones(), parse, a, b);
    CutParts(Lengths(), parse, a, b);
    AllCount(parse, Outside(a, b));
    AllCount(parse, Lines(a));
    AllCount(parse, Lines(b));
    LineCounts(parse, u);
    LineCounts(parse, f);
    LineCounts(parse, u + f);
    StripJoined(u, f);
  }

  // ---------------------------------------------------------------------------
  // Whole streams
  // ---------------------------------------------------------------------------

  /** What counting chunk by chunk adds up to. */
  function ChunkSum(decode: JsonDecoder, parse: ParseInt, chunks: seq<seq<Byte>>): Option<int>
  {
    if chunks == [] then Some(0) else Plus(ChunkSum(decode, parse, Front(chunks)), StreamTokens(decode, parse, Last(chunks)))
  }

  predicate ChunksAgree(decode: JsonDecoder, parse: ParseInt, chunks: seq<seq<Byte>>)
  {
    ChunkSum(decode, parse, chunks) == StreamTokens(decode, parse, Flatten(chunks))
  }

  /** Every cut, between all that came before and the next chunk, is safe. */
  predicate CutsAreSafe(chunks: seq<seq<Byte>>)
  {
    chunks == [] || (CutsAreSafe(Front(chunks)) && CutIsSafe(Flatten(Front(chunks)), Last(chunks)))
  }

  lemma NothingCounts(decode: JsonDecoder, parse: ParseInt)
    ensures StreamTokens(decode, parse, []) == Some(0)
  {
    NoNewline([]);
    SumOne(decode, parse, []);
    assert Strip([]) == [];
  }

  lemma {:induction false} SafeCutsAgree(decode: JsonDecoder, parse: ParseInt, chunks: seq<seq<Byte>>)
    requires CutsAreSafe(chunks)
    ensures ChunksAgree(decode, parse, chunks)
  {
    if chunks == [] {
      NothingCounts(decode, parse);
    } else {
      SafeCutsAgree(decode, parse, Front(chunks));
      SafeCutAgrees(decode, parse, Flatten(Front(chunks)), Last(chunks));
    }
  }

  function TallySum(decode: JsonDecoder, parse: ParseInt, chunks: seq<seq<Byte>>): int
  {
    if chunks == [] then 0 else TallySum(decode, parse, Front(chunks)) + Tally(decode, parse, Last(chunks))
  }

  lemma {:induction false} TallyIsSum(parse: ParseInt, chunks: seq<seq<Byte>>)
    ensures ChunkSum(Ones(), parse, chunks) == Some(TallySum(Ones(), parse, chunks))
    ensures ChunkSum(Lengths(), parse, chunks) == Some(TallySum(Lengths(), parse, chunks))
  {
    if chunks != [] {
      TallyIsSum(parse, Front(chunks));
      AllCount(parse, Lines(Last(chunks)));
    }
  }

  predicate CutsAreSafeOrInObject(chunks: seq<seq<Byte>>)
  {
    chunks == []
    || (CutsAreSafeOrInObject(Front(chunks))
        && (CutIsSafe(Flatten(Front(chunks)), Last(chunks)) || CutInObject(Flatten(Front(chunks)), Last(chunks))))
  }

  lemma {:induction false} OnesNeverLess(parse: ParseInt, chunks: seq<seq<Byte>>)
    ensures Tally(Ones(), parse, Flatten(chunks)) <= TallySum(Ones(), parse, chunks)
    ensures Tally(Ones(), parse, Flatten(chunks)) == TallySum(Ones(), parse, chunks) ==> CutsAreSafeOrInObject(chunks)
  {
    if chunks == [] {
      NothingCounts(Ones(), parse);
    } else {
      OnesNeverLess(parse, Front(chunks));
      CutTallies(parse, Flatten(Front(chunks)), Last(chunks));
    }
  }

  lemma {:induction false} LengthsNeverMore(parse: ParseInt, chunks: seq<seq<Byte>>)
    requires CutsAreSafeOrInObject(chunks)
    ensures Tally(Lengths(), parse, Flatten(chunks)) >= TallySum(Lengths(), parse, chunks)
    ensures Tally(Lengths(), parse, Flatten(chunks)) == TallySum(Lengths(), parse, chunks) ==> CutsAreSafe(chunks)
  {
    if chunks == [] {
      NothingCounts(Lengths(), parse);
    } else {
      LengthsNeverMore(parse, Front(chunks));
      CutTallies(parse, Flatten(Front(chunks)), Last(chunks));
    }
  }

  /** The count does not depend on the cuts, for every decoder, exactly if every cut is safe: it leaves a
      blank fragment on one side, or no fragment on either side that looks like an object. */
  lemma {:induction false} CutsAgreeExactly(parse: ParseInt, chunks: seq<seq<Byte>>)
    ensures (forall decode: JsonDecoder :: ChunksAgree(decode, parse, chunks)) <==> CutsAreSafe(chunks)
  {
    if CutsAreSafe(chunks) {
      forall decode: JsonDecoder
        ensures ChunksAgree(decode, parse, chunks)
      {
        SafeCutsAgree(decode, parse, chunks);
      }
    }
    if forall decode: JsonDecoder :: ChunksAgree(decode, parse, chunks) {
      assert ChunksAgree(Ones(), parse, chunks) && ChunksAgree(Lengths(), parse, chunks);
      TallyIsSum(parse, chunks);
      OnesNeverLess(parse, chunks);
      LengthsNeverMore(parse, chunks);
    }
  }

  /** The same for a single cut. */
  lemma {:induction false} CutAgreesForAllExactly(parse: ParseInt, a: seq<Byte>, b: seq<Byte>)
    ensures (forall decode: JsonDecoder :: CutAgrees(decode, parse, a, b)) <==> CutIsSafe(a, b)
  {
    if CutIsSafe(a, b) {
      forall decode: JsonDecoder
        ensures CutAgrees(decode, parse, a, b)
      {
        SafeCutAgrees(decode, parse, a, b);
      }
    }
    if forall decode: JsonDecoder :: CutAgrees(decode, parse, a, b) {
      assert CutAgrees(Ones(), parse, a, b) && CutAgrees(Lengths(), parse, a, b);
      AllCount(parse, Lines(a));
      AllCount(parse, Lines(b));
      CutTallies(parse, a, b);
    }
  }

  lemma {:induction false} UnfinishedAfter(a: seq<Byte>, b: seq<Byte>)
    requires Unfinished(a) == [] && (b == [] || Last(b) == NEWLINE)
    ensures Unfinished(a + b) == []
  {
    if b == [] {
      assert a + b == a;
    } else {
      var line := Unfinished(a + Front(b));
      LinesAppend(a + Front(b), [NEWLINE]);
      assert a + b == a + Front(b) + [NEWLINE];
      LinesSplit(a + Front(b));
      SplitFirst(line + [NEWLINE], line, []);
      assert line + [NEWLINE] == line + [NEWLINE] + [];
      NoNewline([]);
    }
  }

  /** Cuts behind newlines, or before the first byte, are safe: so are all of them if every chunk but the
      last ends a line or is empty. */
  lemma {:induction false} LineCutsAreSafe(chunks: seq<seq<Byte>>)
    requires forall i :: 0 <= i < |chunks| - 1 ==> chunks[i] == [] || Last(chunks[i]) == NEWLINE
    ensures CutsAreSafe(chunks)
    ensures chunks != [] && (Last(chunks) == [] || Last(Last(chunks)) == NEWLINE) ==> Unfinished(Flatten(chunks)) == []
  {
    if chunks != [] {
      LineCutsAreSafe(Front(chunks));
      if Front(chunks) == [] {
        NoNewline([]);
      } else {
        assert Last(Front(chunks)) == chunks[|chunks| - 2];
      }
      if Last(chunks) == [] || Last(Last(chunks)) == NEWLINE {
        UnfinishedAfter(Flatten(Front(chunks)), Last(chunks));
      }
      assert Strip([]) == [];
    }
  }

  /** A cut that is not safe: inside a record, neither half of which is one. */
  lemma {:induction false} CutChangesCount(decode: JsonDecoder, parse: ParseInt, a: seq<Byte>, b: seq<Byte>)
    requires NEWLINE !in a + b && Strip(a) == a != [] && Strip(b) == b != [] && Strip(a + b) == a + b
    requires a[0] == BRACE != b[0] && decode(a) == Malformed && decode(a + b) == Record(true, Whole(1), Absent)
    ensures StreamTokens(decode, parse, a) == StreamTokens(decode, parse, b) == Some(0)
    ensures StreamTokens(decode, parse, a + b) == Some(1) && !CutIsSafe(a, b)
  {
    NoNewline(a);
    NoNewline(b);
    NoNewline(a + b);
    SumOne(decode, parse, a);
    SumOne(decode, parse, b);
    SumOne(decode, parse, a + b);
  }
}
