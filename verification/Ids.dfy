/** Time-sorted identifiers: fixed-width Crockford base 32, and the generator that counts up
    within a millisecond. */
module Ids {
  import opened Common

  /** The layout of an identifier: 32 symbols in ascending order, the width of the time part
      and the width of the counter part. */
  datatype Layout = Layout(alphabet: string, timeWidth: nat, counterWidth: nat)

  type Format = f: Layout |
    && |f.alphabet| == 32
    && (forall i, j :: 0 <= i < j < 32 ==> f.alphabet[i] < f.alphabet[j])
    && 1 <= f.counterWidth
    witness CROCKFORD

  /** The gateway's format: Crockford's alphabet, 10 time digits and 12 counter digits. */
  const CROCKFORD := Layout("0123456789ABCDEFGHJKMNPQRSTVWXYZ", 10, 12)

  function Pow32(n: nat): (p: nat)
    ensures 1 <= p
  {
    if n == 0 then 1 else 32 * Pow32(n - 1)
  }

  /** The digit a symbol stands for. */
  function DigitOf(f: Format, c: char): (digit: nat)
    requires c in f.alphabet
    ensures digit < 32 && f.alphabet[digit] == c
  {
    Position(f.alphabet, c)
  }

  function Position(symbols: string, c: char): (i: nat)
    requires c in symbols
    ensures i < |symbols| && symbols[i] == c
  {
    if symbols[0] == c then 0 else 1 + Position(symbols[1..], c)
  }

  predicate IsNumeral(f: Format, text: string)
  {
    forall i :: 0 <= i < |text| ==> text[i] in f.alphabet
  }

  /** The last `length` base-32 digits of `value`. */
  function Encode(f: Format, value: nat, length: nat): (text: string)
    ensures |text| == length && IsNumeral(f, text)
  {
    if length == 0 then "" else Encode(f, value / 32, length - 1) + [f.alphabet[value % 32]]
  }

  function Decode(f: Format, text: string): nat
    requires IsNumeral(f, text)
  {
    if text == "" then 0 else Decode(f, text[..|text| - 1]) * 32 + DigitOf(f, text[|text| - 1])
  }

  method EncodeValue(f: Format, value: nat, length: nat) returns (text: string)
    ensures text == Encode(f, value, length)
  {
    var out := new char[length];
    var rest := value;
    for i := length downto 0
      invariant Encode(f, value, length) == Encode(f, rest, i) + out[i..]
    {
      out[i] := f.alphabet[rest % 32];
      assert out[i..] == [out[i]] + out[i + 1..];
      rest := rest / 32;
    }
    text := out[..];
  }

  /** `None` stands for the KeyError of a character outside the alphabet. */
  method DecodeText(f: Format, text: string) returns (value: Option<nat>)
    ensures value == if IsNumeral(f, text) then Some(Decode(f, text)) else None
  {
    var total := 0;
    for i := 0 to |text|
      invariant IsNumeral(f, text[..i]) && total == Decode(f, text[..i])
    {
      if text[i] !in f.alphabet {
        return None;
      }
      assert text[..i + 1][..i] == text[..i];
      total := total * 32 + DigitOf(f, text[i]);
    }
    assert text[..|text|] == text;
    value := Some(total);
  }

  // ---------------------------------------------------------------------------
  // Round trips and order
  // ---------------------------------------------------------------------------

  lemma SplitDigit(value: nat, power: nat)
    requires 0 < power
    ensures (value / 32 % power) * 32 + value % 32 == value % (32 * power)
  {
    var high, low := value / 32, value % 32;
    var q, r := high / power, high % power;
    assert value == (q * power + r) * 32 + low;
    assert value == q * (32 * power) + (r * 32 + low);
    assert r * 32 + low < 32 * power;
    QuotientRemainder(value, 32 * power, q, r * 32 + low);
  }

  lemma QuotientRemainder(value: nat, divisor: nat, q: nat, r: nat)
    requires value == q * divisor + r && r < divisor
    ensures value % divisor == r && value / divisor == q
  {
    var d := value / divisor - q;
    assert d * divisor == r - value % divisor;
    MultipleIsFar(d, divisor);
  }

  lemma MultipleIsFar(d: int, divisor: nat)
    ensures 1 <= d ==> divisor <= d * divisor
    ensures d <= -1 ==> d * divisor + divisor <= 0
  {
  }

  /** Decoding an encoding gives the value modulo 32^length. */
  lemma {:induction false} DecodeEncode(f: Format, value: nat, length: nat)
    ensures Decode(f, Encode(f, value, length)) == value % Pow32(length)
  {
    if length != 0 {
      DecodeEncode(f, value / 32, length - 1);
      SplitDigit(value, Pow32(length - 1));
      assert DigitOf(f, f.alphabet[value % 32]) == value % 32;
      assert Encode(f, value, length)[..length - 1] == Encode(f, value / 32, length - 1);
    }
  }

  /** Encoding a decoded numeral of the same width gives the numeral back. */
  lemma {:induction false} EncodeDecode(f: Format, text: string)
    requires IsNumeral(f, text)
    ensures Encode(f, Decode(f, text), |text|) == text && Decode(f, text) < Pow32(|text|)
  {
    if text != "" {
      var front := text[..|text| - 1];
      EncodeDecode(f, front);
      QuotientRemainder(Decode(f, text), 32, Decode(f, front), DigitOf(f, text[|text| - 1]));
    }
  }

  /** Python's string order. */
  predicate LexLess(s: string, t: string)
  {
    t != "" && (s == "" || s[0] < t[0] || (s[0] == t[0] && LexLess(s[1..], t[1..])))
  }

  /** The value of a numeral, leading digit first. */
  lemma {:induction false} DecodeLeading(f: Format, text: string)
    requires IsNumeral(f, text) && text != ""
    ensures Decode(f, text) == DigitOf(f, text[0]) * Pow32(|text| - 1) + Decode(f, text[1..])
  {
    if |text| == 1 {
      assert text[..0] == "" && text[1..] == "";
    } else {
      var front := text[..|text| - 1];
      DecodeLeading(f, front);
      assert text[1..][..|text| - 2] == front[1..];
      assert front[0] == text[0];
      assert front[1..] == text[1..|text| - 1];
      ShiftPower(DigitOf(f, text[0]), Pow32(|text| - 2));
    }
  }

  lemma ShiftPower(digit: nat, power: nat)
    ensures digit * power * 32 == digit * (32 * power)
  {
  }

  lemma LeadingDigitDecides(a: nat, b: nat, power: nat, x: nat, y: nat)
    requires x < power && y < power
    ensures a < b ==> a * power + x < b * power + y
    ensures a == b ==> (a * power + x < b * power + y <==> x < y)
  {
    if a < b {
      assert (a + 1) * power <= b * power;
    }
  }

  /** Numerals of one width compare like the numbers they stand for. */
  lemma {:induction false} OrderIsNumeric(f: Format, s: string, t: string)
    requires IsNumeral(f, s) && IsNumeral(f, t) && |s| == |t|
    ensures LexLess(s, t) <==> Decode(f, s) < Decode(f, t)
  {
    if s != "" {
      var a, b := DigitOf(f, s[0]), DigitOf(f, t[0]);
      OrderIsNumeric(f, s[1..], t[1..]);
      DecodeLeading(f, s);
      DecodeLeading(f, t);
      EncodeDecode(f, s[1..]);
      EncodeDecode(f, t[1..]);
      LeadingDigitDecides(a, b, Pow32(|s| - 1), Decode(f, s[1..]), Decode(f, t[1..]));
      LeadingDigitDecides(b, a, Pow32(|s| - 1), Decode(f, t[1..]), Decode(f, s[1..]));
    }
  }

  /** Fixed-width encodings order lexicographically as the numbers do. */
  lemma EncodingKeepsOrder(f: Format, a: nat, b: nat, length: nat)
    requires a < Pow32(length) && b < Pow32(length)
    ensures LexLess(Encode(f, a, length), Encode(f, b, length)) <==> a < b
    ensures Encode(f, a, length) == Encode(f, b, length) <==> a == b
  {
    OrderIsNumeric(f, Encode(f, a, length), Encode(f, b, length));
    DecodeEncode(f, a, length);
    DecodeEncode(f, b, length);
    SmallModulo(a, Pow32(length));
    SmallModulo(b, Pow32(length));
  }

  lemma SmallModulo(a: nat, n: nat)
    requires a < n
    ensures a % n == a
  {
  }

  lemma {:induction false} LexAppend(s: string, t: string, a: string, b: string)
    requires |s| == |t|
    ensures LexLess(s + a, t + b) <==> LexLess(s, t) || (s == t && LexLess(a, b))
  {
    if s == "" {
      assert s + a == a && t + b == b;
    } else {
      assert (s + a)[1..] == s[1..] + a && (t + b)[1..] == t[1..] + b;
      LexAppend(s[1..], t[1..], a, b);
      assert s == t <==> s[0] == t[0] && s[1..] == t[1..];
    }
  }

  // ---------------------------------------------------------------------------
  // The generator
  // ---------------------------------------------------------------------------

  /** The globals `_last_ms` and `_last_suffix`, the suffix as the number it stands for and
      `None` while it is still empty. */
  datatype State = State(ms: nat, count: Option<nat>)

  const START := State(0, None)

  /** One call: the clock reading, and the number a random suffix stands for if one is drawn. */
  datatype Draw = Draw(ms: nat, random: nat)

  /** Counting up with wrap-around below `n`. */
  function Successor(value: nat, n: nat): nat
  {
    if value + 1 < n then value + 1 else 0
  }

  /** A new millisecond draws a random counter, the same millisecond counts up. */
  function Next(n: nat, s: State, d: Draw): State
  {
    if d.ms != s.ms then State(d.ms, Some(d.random))
    else State(d.ms, Some(if s.count.Some? then Successor(s.count.value, n) else 0))
  }

  function Render(f: Format, prefix: string, ms: nat, count: nat): string
  {
    prefix + "_" + (Encode(f, ms, f.timeWidth) + Encode(f, count, f.counterWidth))
  }

  class IdGenerator {
    const f: Format
    var lastMs: nat
    var lastSuffix: string

    ghost predicate Valid()
      reads this
    {
      IsNumeral(f, lastSuffix) && (lastSuffix == "" || |lastSuffix| == f.counterWidth)
    }

    ghost function Abstract(): State
      requires Valid()
      reads this
    {
      State(lastMs, if lastSuffix == "" then None else Some(Decode(f, lastSuffix)))
    }

    constructor (f: Format)
      ensures Valid() && this.f == f && Abstract() == START
    {
      this.f := f;
      lastMs, lastSuffix := 0, "";
    }

    /** The overflow branch of the source (`suffix == _last_suffix`) is never taken: the id
        always carries the clock reading `clock` itself. */
    method MonotonicId(prefix: string, clock: nat, random: string) returns (id: string)
      requires Valid() && |random| == f.counterWidth && IsNumeral(f, random)
      modifies this`lastMs, this`lastSuffix
      ensures Valid()
      ensures Abstract() == Next(Pow32(f.counterWidth), old(Abstract()), Draw(clock, Decode(f, random)))
      ensures id == Render(f, prefix, clock, Abstract().count.value)
    {
      var ms, suffix := clock, random;
      if ms == lastMs {
        var value := 0;
        if lastSuffix != "" {
          var last := DecodeText(f, lastSuffix);
          value := (last.value + 1) % Pow32(f.counterWidth);
          EncodeDecode(f, lastSuffix);
          StepModulo(last.value, Pow32(f.counterWidth));
        }
        suffix := EncodeValue(f, value, f.counterWidth);
        CounterText(f, value, lastSuffix);
        if suffix == lastSuffix {
          // Here the source would take the next millisecond and a new random suffix.
          assert false;
        }
      }
      lastMs, lastSuffix := ms, suffix;
      EncodeDecode(f, suffix);
      var time := EncodeValue(f, ms, f.timeWidth);
      id := prefix + "_" + (time + suffix);
    }
  }

  lemma StepModulo(a: nat, n: nat)
    requires a < n
    ensures (a + 1) % n == Successor(a, n)
  {
    if a + 1 == n {
      QuotientRemainder(n, n, 1, 0);
    } else {
      SmallModulo(a + 1, n);
    }
  }

  /** A counter that has moved on has a different suffix. */
  lemma CounterText(f: Format, value: nat, last: string)
    requires IsNumeral(f, last) && (last == "" || |last| == f.counterWidth)
    requires value == if last == "" then 0 else Successor(Decode(f, last), Pow32(f.counterWidth))
    ensures Encode(f, value, f.counterWidth) != last
    ensures Decode(f, Encode(f, value, f.counterWidth)) == value
  {
    DecodeEncode(f, value, f.counterWidth);
    EncodeDecode(f, last);
    SmallModulo(value, Pow32(f.counterWidth));
    assert 2 <= Pow32(f.counterWidth);
  }

  /** The state after a run of calls, for counters below `n`. */
  function After(n: nat, draws: seq<Draw>): (r: State)
    ensures draws != [] ==> r.count.Some? && r.ms == draws[|draws| - 1].ms
  {
    if draws == [] then START else Next(n, After(n, draws[..|draws| - 1]), draws[|draws| - 1])
  }

  /** The id that the last call of a run returns. */
  function LastId(f: Format, prefix: string, draws: seq<Draw>): string
    requires draws != []
  {
    Render(f, prefix, draws[|draws| - 1].ms, After(Pow32(f.counterWidth), draws).count.value)
  }

  ghost predicate Reads(f: Format, prefix: string, ms: nat, count: nat, id: string)
  {
    var n := |prefix| + 1;
    && |id| == n + f.timeWidth + f.counterWidth
    && id[..|prefix|] == prefix && id[|prefix|] == '_'
    && IsNumeral(f, id[n..n + f.timeWidth]) && Decode(f, id[n..n + f.timeWidth]) == ms
    && IsNumeral(f, id[n + f.timeWidth..]) && Decode(f, id[n + f.timeWidth..]) == count
  }

  /** From an id one reads back its prefix, the millisecond and the counter: 10 digits and 12 digits behind an
      underscore, in the gateway's format. */
  lemma {:induction false} IdReads(f: Format, prefix: string, ms: nat, count: nat)
    requires ms < Pow32(f.timeWidth) && count < Pow32(f.counterWidth)
    ensures Reads(f, prefix, ms, count, Render(f, prefix, ms, count))
  {
    ReadsBack(f, ms, f.timeWidth);
    ReadsBack(f, count, f.counterWidth);
    JoinedReads(f, prefix, ms, count, Encode(f, ms, f.timeWidth), Encode(f, count, f.counterWidth));
  }

  lemma {:induction false} JoinedReads(f: Format, prefix: string, ms: nat, count: nat, t: string, c: string)
    requires IsNumeral(f, t) && |t| == f.timeWidth && Decode(f, t) == ms
    requires IsNumeral(f, c) && |c| == f.counterWidth && Decode(f, c) == count
    ensures Reads(f, prefix, ms, count, prefix + "_" + (t + c))
  {
    Slices(prefix, t, c);
  }

  lemma {:induction false} ReadsBack(f: Format, value: nat, length: nat)
    requires value < Pow32(length)
    ensures Decode(f, Encode(f, value, length)) == value
  {
    DecodeEncode(f, value, length);
    SmallModulo(value, Pow32(length));
  }

  lemma {:induction false} Slices(prefix: string, t: string, c: string)
    ensures var id, n := prefix + "_" + (t + c), |prefix| + 1;
      && |id| == n + |t| + |c| && id[..|prefix|] == prefix && id[|prefix|] == '_'
      && id[n..] == t + c && id[n..n + |t|] == t && id[n + |t|..] == c
  {
  }

  lemma CrockfordWidths()
    ensures CROCKFORD.alphabet == "0123456789ABCDEFGHJKMNPQRSTVWXYZ" && CROCKFORD.timeWidth == 10 && CROCKFORD.counterWidth == 12
  {
  }

  /** The counter of an id is the number drawn for it if its millisecond is a new one, and one more than that of the
      id before it, modulo 32^12, otherwise. */
  lemma {:induction false} CounterIsDrawn(f: Format, draws: seq<Draw>)
    requires 2 <= |draws| && Timely(f, draws)
    ensures var n, last := Pow32(f.counterWidth), draws[|draws| - 1];
      var before, after := After(n, draws[..|draws| - 1]), After(n, draws);
      after.count == Some(if draws[|draws| - 2].ms != last.ms then last.random else (before.count.value + 1) % n)
  {
    var n := Pow32(f.counterWidth);
    CountInRange(f, draws[..|draws| - 1]);
    StepModulo(After(n, draws[..|draws| - 1]).count.value, n);
  }

  /** A run with a clock that never goes back and stays below 32^10 milliseconds. */
  ghost predicate Timely(f: Format, draws: seq<Draw>)
  {
    && (forall i :: 0 <= i < |draws| ==> draws[i].random < Pow32(f.counterWidth) && draws[i].ms < Pow32(f.timeWidth))
    && (forall i, j :: 0 <= i < j < |draws| ==> draws[i].ms <= draws[j].ms)
  }

  /** Ids of one prefix compare by time, then by counter. */
  lemma IdOrder(f: Format, prefix: string, ms: nat, count: nat, ms': nat, count': nat)
    requires ms < Pow32(f.timeWidth) && ms' < Pow32(f.timeWidth)
    requires count < Pow32(f.counterWidth) && count' < Pow32(f.counterWidth)
    ensures LexLess(Render(f, prefix, ms, count), Render(f, prefix, ms', count')) <==>
      ms < ms' || (ms == ms' && count < count')
    ensures Render(f, prefix, ms, count) == Render(f, prefix, ms', count') <==> ms == ms' && count == count'
  {
    var t, t' := Encode(f, ms, f.timeWidth), Encode(f, ms', f.timeWidth);
    var c, c' := Encode(f, count, f.counterWidth), Encode(f, count', f.counterWidth);
    EncodingKeepsOrder(f, ms, ms', f.timeWidth);
    EncodingKeepsOrder(f, count, count', f.counterWidth);
    LexAppend(t, t', c, c');
    var p := prefix + "_";
    LexAppend(p, p, t + c, t' + c');
    NotLess(p);
    if Render(f, prefix, ms, count) == Render(f, prefix, ms', count') {
      assert (p + (t + c))[|p|..] == t + c && (p + (t' + c'))[|p|..] == t' + c';
      assert (t + c)[..|t|] == t && (t' + c')[..|t|] == t';
      assert (t + c)[|t|..] == c && (t' + c')[|t|..] == c';
    }
  }

  lemma {:induction false} NotLess(s: string)
    ensures !LexLess(s, s)
  {
    if s != "" {
      NotLess(s[1..]);
    }
  }

  lemma {:induction false} CountInRange(f: Format, draws: seq<Draw>)
    requires Timely(f, draws) && draws != []
    ensures After(Pow32(f.counterWidth), draws).count.value < Pow32(f.counterWidth)
  {
    if 1 < |draws| {
      CountInRange(f, draws[..|draws| - 1]);
    }
  }

  /** Each id is greater than the one before it if and only if the millisecond changed or the
      counter did not wrap. */
  lemma {:induction false} ConsecutiveIds(f: Format, prefix: string, draws: seq<Draw>)
    requires 2 <= |draws| && Timely(f, draws)
    ensures LexLess(LastId(f, prefix, draws[..|draws| - 1]), LastId(f, prefix, draws)) <==>
      draws[|draws| - 2].ms < draws[|draws| - 1].ms
      || After(Pow32(f.counterWidth), draws[..|draws| - 1]).count.value + 1 < Pow32(f.counterWidth)
  {
    var n, front := Pow32(f.counterWidth), draws[..|draws| - 1];
    CountInRange(f, front);
    CountInRange(f, draws);
    IdOrder(f, prefix, front[|front| - 1].ms, After(n, front).count.value,
      draws[|draws| - 1].ms, After(n, draws).count.value);
    assert front[|front| - 1].ms <= draws[|draws| - 1].ms;
  }

  /** Over a whole run without a wrap, ids of one prefix strictly increase. */
  lemma {:induction false} IdsIncrease(f: Format, prefix: string, draws: seq<Draw>, i: nat)
    requires Timely(f, draws) && 0 < i < |draws|
    requires forall k :: i <= k < |draws| ==>
      draws[k - 1].ms < draws[k].ms || After(Pow32(f.counterWidth), draws[..k]).count.value + 1 < Pow32(f.counterWidth)
    ensures LexLess(LastId(f, prefix, draws[..i]), LastId(f, prefix, draws))
  {
    var front := draws[..|draws| - 1];
    ConsecutiveIds(f, prefix, draws);
    if i < |front| {
      assert forall k :: i <= k <= |front| ==> front[..k] == draws[..k];
      IdsIncrease(f, prefix, front, i);
      LexTransitive(LastId(f, prefix, front[..i]), LastId(f, prefix, front), LastId(f, prefix, draws));
    } else {
      assert draws[..i] == front;
    }
  }

  lemma {:induction false} LexTransitive(a: string, b: string, c: string)
    requires LexLess(a, b) && LexLess(b, c)
    ensures LexLess(a, c)
  {
    if a != "" && a[0] == b[0] == c[0] {
      LexTransitive(a[1..], b[1..], c[1..]);
    }
  }

  function Steps(value: nat, k: nat, n: nat): nat
  {
    if k == 0 then value else Successor(Steps(value, k - 1, n), n)
  }

  lemma {:induction false} StepsWrap(value: nat, k: nat, n: nat)
    requires value < n
    ensures Steps(value, k, n) == (value + k) % n
  {
    if k == 0 {
      SmallModulo(value, n);
    } else {
      StepsWrap(value, k - 1, n);
      NextWraps(value, k - 1, n, Steps(value, k - 1, n));
    }
  }

  lemma NextWraps(start: nat, steps: nat, n: nat, last: nat)
    requires 0 < n && last == (start + steps) % n
    ensures Successor(last, n) == (start + (steps + 1)) % n
  {
    var a := start + steps;
    var q := a / n;
    assert a == q * n + a % n;
    if last + 1 < n {
      QuotientRemainder(a + 1, n, q, last + 1);
    } else {
      assert a + 1 == (q + 1) * n + 0;
      QuotientRemainder(a + 1, n, q + 1, 0);
    }
  }

  lemma ShiftModulo(a: nat, k: nat, n: nat)
    requires a < n
    ensures (a + k) % n == a <==> k % n == 0
  {
    var q, r := k / n, k % n;
    assert k == q * n + r;
    if a + r < n {
      QuotientRemainder(a + k, n, q, a + r);
    } else {
      assert a + k == (q + 1) * n + (a + r - n);
      QuotientRemainder(a + k, n, q + 1, a + r - n);
    }
  }

  /** Counting returns to its start exactly after a multiple of n steps. */
  lemma StepsReturn(value: nat, k: nat, n: nat)
    requires value < n
    ensures Steps(value, k, n) == value <==> k % n == 0
  {
    StepsWrap(value, k, n);
    ShiftModulo(value, k, n);
  }

  /** Within one millisecond the counter advances by one per id. */
  lemma {:induction false} CounterAdvances(n: nat, draws: seq<Draw>, i: nat)
    requires forall i, j :: 0 <= i < j < |draws| ==> draws[i].ms <= draws[j].ms
    requires 0 < i <= |draws| && draws[i - 1].ms == draws[|draws| - 1].ms
    ensures After(n, draws).count.value == Steps(After(n, draws[..i]).count.value, |draws| - i, n)
  {
    if i == |draws| {
      assert draws[..i] == draws;
    } else {
      var front := draws[..|draws| - 1];
      assert draws[i - 1].ms <= draws[|draws| - 2].ms <= draws[|draws| - 1].ms;
      CounterAdvances(n, front, i);
      assert front[..i] == draws[..i];
    }
  }

  /** Two ids of a run are equal if and only if they were made in the same millisecond, a
      multiple of 32^12 calls apart. */
  lemma {:induction false} IdsRepeat(f: Format, prefix: string, draws: seq<Draw>, i: nat)
    requires Timely(f, draws) && 0 < i < |draws|
    ensures LastId(f, prefix, draws[..i]) == LastId(f, prefix, draws) <==>
      draws[i - 1].ms == draws[|draws| - 1].ms && (|draws| - i) % Pow32(f.counterWidth) == 0
  {
    var n := Pow32(f.counterWidth);
    CountInRange(f, draws[..i]);
    CountInRange(f, draws);
    IdOrder(f, prefix, draws[i - 1].ms, After(n, draws[..i]).count.value,
      draws[|draws| - 1].ms, After(n, draws).count.value);
    if draws[i - 1].ms == draws[|draws| - 1].ms {
      CounterAdvances(n, draws, i);
      StepsReturn(After(n, draws[..i]).count.value, |draws| - i, n);
    }
  }

  /** So fewer than 32^12 consecutive ids are always distinct. */
  lemma {:induction false} FewIdsDiffer(f: Format, prefix: string, draws: seq<Draw>, i: nat)
    requires Timely(f, draws) && 0 < i < |draws| && |draws| - i < Pow32(f.counterWidth)
    ensures LastId(f, prefix, draws[..i]) != LastId(f, prefix, draws)
  {
    IdsRepeat(f, prefix, draws, i);
    SmallModulo(|draws| - i, Pow32(f.counterWidth));
  }
}
