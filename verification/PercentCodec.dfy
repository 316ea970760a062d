/** Percent labels and basis points, with the overflow checks of `u32`. */
module PercentCodec {
  import opened Wrappers

  const U32_LIMIT: nat := 0x1_0000_0000

  datatype PercentError = Malformed | ThresholdOverflow

  function Digit(n: nat): char
    requires n < 10
  {
    ('0' as int + n) as char
  }

  predicate IsDigit(c: char) { '0' <= c <= '9' }

  predicate AllDigits(s: string) { forall i :: 0 <= i < |s| ==> IsDigit(s[i]) }

  /** Decimal text without leading zeros. */
  function Decimal(n: nat): (s: string)
    ensures s != [] && AllDigits(s)
  {
    if n < 10 then [Digit(n)] else Decimal(n / 10) + [Digit(n % 10)]
  }

  function DigitsValue(s: string): nat
    requires AllDigits(s)
  {
    if s == [] then 0
    else
      assert IsDigit(s[|s| - 1]);
      10 * DigitsValue(s[..|s| - 1]) + (s[|s| - 1] as int - '0' as int)
  }

  /** `str::parse::<u32>`: an optional plus sign, at least one digit, and a value that fits. */
  function ParseU32(s: string): (r: Option<nat>)
    ensures r.Some? ==> r.value < U32_LIMIT
  {
    var digits := if s != [] && s[0] == '+' then s[1..] else s;
    if digits != [] && AllDigits(digits) && DigitsValue(digits) < U32_LIMIT
    then Some(DigitsValue(digits))
    else None
  }

  /** `bps_to_pct_label` */
  function Label(bps: nat): string {
    Decimal(bps / 100) + "." + [Digit(bps % 100 / 10), Digit(bps % 10)]
  }

  /** The text before the first dot, and after it when there is one. */
  function IntPart(s: string): string {
    if s == [] || s[0] == '.' then [] else [s[0]] + IntPart(s[1..])
  }

  function FracPart(s: string): string {
    if s == [] then [] else if s[0] == '.' then s[1..] else FracPart(s[1..])
  }

  function Dots(s: string): nat {
    if s == [] then 0 else (if s[0] == '.' then 1 else 0) + Dots(s[1..])
  }

  function Pad(frac: string): string
    decreases 2 - |frac|
  {
    if |frac| < 2 then Pad(frac + "0") else frac
  }

  /** `decimal_percent_to_bps` as a value: the parts are read on their own and then combined. */
  function ToBps(s: string): Result<nat, PercentError> {
    if s == [] || Dots(s) > 1 then Failure(Malformed) else
    var whole := if IntPart(s) == [] then Some(0) else ParseU32(IntPart(s));
    if whole.None? || |FracPart(s)| > 2 then Failure(Malformed) else
    match ParseU32(Pad(FracPart(s)))
    case None => Failure(Malformed)
    case Some(frac) =>
      if whole.value * 100 + frac < U32_LIMIT then Success(whole.value * 100 + frac) else Failure(ThresholdOverflow)
  }

  /** The parser with its padding loop and its two checked operations. */
  method DecimalPercentToBps(s: string) returns (r: Result<nat, PercentError>)
    ensures r == ToBps(s)
  {
    if s == [] || Dots(s) > 1 {
      return Failure(Malformed);
    }
    var intStr, fracStr := IntPart(s), FracPart(s);
    var intVal := 0;
    if intStr != [] {
      var parsed := ParseU32(intStr);
      if parsed.None? {
        return Failure(Malformed);
      }
      intVal := parsed.value;
    }
    if |fracStr| > 2 {
      return Failure(Malformed);
    }
    var padded := fracStr;
    while |padded| < 2
      invariant |padded| <= 2 && Pad(padded) == Pad(fracStr)
      decreases 2 - |padded|
    {
      padded := padded + "0";
    }
    var fracVal := ParseU32(padded);
    if fracVal.None? {
      return Failure(Malformed);
    }
    var scaled := intVal * 100;
    if scaled >= U32_LIMIT || scaled + fracVal.value >= U32_LIMIT {
      return Failure(ThresholdOverflow);
    }
    return Success(scaled + fracVal.value);
  }

  // ── The accepted texts ──────────────────────────────────────────────────

  predicate NoDot(s: string) { forall i :: 0 <= i < |s| ==> s[i] != '.' }

  /** A text is its part before the dot, or both parts with the one dot between them. */
  predicate Splits(s: string, whole: string, frac: string) {
    NoDot(whole) && NoDot(frac) && (s == whole + "." + frac || (s == whole && frac == []))
  }

  /**
   Hundredths written after the dot: none, tenths, or tenths and hundredths. The
   number parser also takes a plus sign there, which then stands for a zero.
   */
  function Hundredths(frac: string): Option<nat> {
    if |frac| > 2 then None
    else if frac == [] then Some(0)
    else if !(IsDigit(frac[0]) || frac[0] == '+') || (|frac| == 2 && !IsDigit(frac[1])) then None
    else Some(10 * DigitOrZero(frac[0]) + if |frac| == 2 then DigitOrZero(frac[1]) else 0)
  }

  function DigitOrZero(c: char): nat { if IsDigit(c) then c as int - '0' as int else 0 }

  function WholePercent(whole: string): Option<nat> {
    if whole == [] then Some(0) else ParseU32(whole)
  }

  /** The text denotes this many basis points, however large. */
  ghost predicate Denotes(s: string, bps: nat) {
    s != [] && exists whole, frac ::
      Splits(s, whole, frac) && WholePercent(whole).Some? && Hundredths(frac).Some?
      && bps == 100 * WholePercent(whole).value + Hundredths(frac).value
  }

  lemma {:induction false} PartsOf(s: string)
    requires Dots(s) <= 1
    ensures Splits(s, IntPart(s), FracPart(s))
  {
    if s != [] {
      if s[0] == '.' {
        DotsNoDot(s[1..]);
        assert s == IntPart(s) + "." + FracPart(s);
      } else {
        PartsOf(s[1..]);
        assert s == [s[0]] + s[1..];
        if s[1..] == IntPart(s[1..]) + "." + FracPart(s[1..]) {
          assert s == IntPart(s) + "." + FracPart(s);
        }
      }
    }
  }

  lemma {:induction false} DotsNoDot(s: string)
    ensures Dots(s) == 0 <==> NoDot(s)
  {
    if s != [] {
      DotsNoDot(s[1..]);
      assert NoDot(s) <==> s[0] != '.' && NoDot(s[1..]) by {
        assert forall i :: 0 < i < |s| ==> s[i] == s[1..][i - 1];
      }
    }
  }

  lemma {:induction false} NoDotParts(s: string)
    requires NoDot(s)
    ensures IntPart(s) == s && FracPart(s) == [] && Dots(s) == 0
  {
    if s != [] {
      NoDotParts(s[1..]);
    }
  }

  /** The split is the parser's split. */
  lemma SplitIsUnique(s: string, whole: string, frac: string)
    requires Splits(s, whole, frac)
    ensures Dots(s) <= 1 && IntPart(s) == whole && FracPart(s) == frac
  {
    if s == whole + "." + frac {
      SplitAtDot(whole, frac);
    } else {
      NoDotParts(s);
    }
  }

  lemma OneDigit(c: char)
    ensures AllDigits([c]) <==> IsDigit(c)
    ensures IsDigit(c) ==> DigitsValue([c]) == c as int - '0' as int
  {
    if IsDigit(c) {
      assert AllDigits([c]) && [c][..0] == [];
    }
  }

  lemma TwoDigits(a: char, b: char)
    ensures AllDigits([a, b]) <==> IsDigit(a) && IsDigit(b)
    ensures AllDigits([a, b]) ==> DigitsValue([a, b]) == 10 * (a as int - '0' as int) + (b as int - '0' as int)
  {
    var s := [a, b];
    assert AllDigits(s) <==> IsDigit(s[0]) && IsDigit(s[1]);
    if AllDigits(s) {
      assert s[..1] == [a];
      OneDigit(a);
    }
  }

  lemma ParseTwo(a: char, b: char)
    ensures ParseU32([a, b]) ==
            if (IsDigit(a) || a == '+') && IsDigit(b) then Some(10 * DigitOrZero(a) + DigitOrZero(b)) else None
  {
    TwoDigits(a, b);
    OneDigit(b);
    assert [a, b][1..] == [b];
  }

  lemma PadTo(frac: string)
    ensures |frac| == 2 ==> Pad(frac) == frac
    ensures |frac| == 1 ==> Pad(frac) == [frac[0], '0']
    ensures frac == [] ==> Pad(frac) == ['0', '0']
  {
    if |frac| == 1 {
      assert frac + "0" == [frac[0], '0'];
    } else if frac == [] {
      assert frac + "0" == ['0'];
      assert ['0'] + "0" == ['0', '0'];
      assert Pad(['0']) == ['0', '0'];
    }
  }

  lemma TwoHundredths(a: char, b: char)
    ensures Hundredths([a, b]) == ParseU32([a, b])
  {
    ParseTwo(a, b);
  }

  lemma ZeroMayBeLeftOut(frac: string)
    requires |frac| == 1
    ensures Hundredths(frac) == Hundredths([frac[0], '0'])
  {
  }

  lemma PaddedHundredths(frac: string)
    requires |frac| <= 2
    ensures ParseU32(Pad(frac)) == Hundredths(frac)
  {
    PadTo(frac);
    if frac == [] {
      TwoHundredths('0', '0');
    } else if |frac| == 1 {
      ZeroMayBeLeftOut(frac);
      TwoHundredths(frac[0], '0');
    } else {
      TwoHundredths(frac[0], frac[1]);
      assert frac == [frac[0], frac[1]];
    }
  }

  /** The parser's own split, read as the specification reads it. */
  predicate Readable(s: string) {
    && s != [] && Dots(s) <= 1
    && WholePercent(IntPart(s)).Some? && Hundredths(FracPart(s)).Some?
  }

  function Reading(s: string): nat
    requires Readable(s)
  {
    100 * WholePercent(IntPart(s)).value + Hundredths(FracPart(s)).value
  }

  lemma ParserReads(s: string)
    ensures ToBps(s) == if !Readable(s) then Failure(Malformed)
                        else if Reading(s) < U32_LIMIT then Success(Reading(s)) else Failure(ThresholdOverflow)
  {
    if |FracPart(s)| <= 2 {
      PaddedHundredths(FracPart(s));
    }
  }

  /** A text denotes at most one value, the one read off the parser's split. */
  lemma DenotesIffReads(s: string, bps: nat)
    ensures Denotes(s, bps) <==> Readable(s) && bps == Reading(s)
  {
    if Denotes(s, bps) {
      var whole, frac :| Splits(s, whole, frac) && WholePercent(whole).Some? && Hundredths(frac).Some?
                         && bps == 100 * WholePercent(whole).value + Hundredths(frac).value;
      SplitIsUnique(s, whole, frac);
    }
    if Readable(s) {
      PartsOf(s);
    }
  }

  ghost predicate DenotesTooMuch(s: string) { exists n: nat :: Denotes(s, n) && n >= U32_LIMIT }

  ghost predicate DenotesNothing(s: string) { forall n: nat :: !Denotes(s, n) }

  /**
   The parser accepts a text with a value exactly when the text denotes that many
   basis points and they fit in 32 bits; a text that denotes more overflows; every
   other text is malformed.
   */
  lemma AcceptsIffDenotes(s: string, bps: nat)
    ensures ToBps(s) == Success(bps) <==> Denotes(s, bps) && bps < U32_LIMIT
    ensures ToBps(s) == Failure(ThresholdOverflow) <==> DenotesTooMuch(s)
    ensures ToBps(s) == Failure(Malformed) <==> DenotesNothing(s)
  {
    ParserReads(s);
    forall n: nat ensures Denotes(s, n) <==> Readable(s) && n == Reading(s) {
      DenotesIffReads(s, n);
    }
    assert Readable(s) ==> Denotes(s, Reading(s));
  }

  // ── Round trip ──────────────────────────────────────────────────────────

  lemma {:induction false} DecimalValue(n: nat)
    ensures DigitsValue(Decimal(n)) == n
  {
    if n >= 10 {
      DecimalValue(n / 10);
      assert Decimal(n)[..|Decimal(n)| - 1] == Decimal(n / 10);
    }
  }

  lemma ParseDecimal(n: nat)
    requires n < U32_LIMIT
    ensures ParseU32(Decimal(n)) == Some(n)
  {
    DecimalValue(n);
    assert IsDigit(Decimal(n)[0]);
  }

  lemma {:induction false} SplitAtDot(whole: string, frac: string)
    requires forall i :: 0 <= i < |whole| ==> whole[i] != '.'
    requires forall i :: 0 <= i < |frac| ==> frac[i] != '.'
    ensures IntPart(whole + "." + frac) == whole
    ensures FracPart(whole + "." + frac) == frac
    ensures Dots(whole + "." + frac) == 1
  {
    var s := whole + "." + frac;
    if whole == [] {
      assert s[1..] == frac;
      NoDots(frac);
    } else {
      assert s[1..] == whole[1..] + "." + frac;
      SplitAtDot(whole[1..], frac);
    }
  }

  lemma {:induction false} NoDots(s: string)
    requires forall i :: 0 <= i < |s| ==> s[i] != '.'
    ensures Dots(s) == 0
  {
    if s != [] { NoDots(s[1..]); }
  }

  lemma TwoDigitValue(tens: nat, units: nat)
    requires tens < 10 && units < 10
    ensures ParseU32(Pad([Digit(tens), Digit(units)])) == Some(10 * tens + units)
  {
    var s := [Digit(tens), Digit(units)];
    assert AllDigits(s) && AllDigits(s[..1]);
    assert s[..1][..0] == [];
    assert DigitsValue(s[..1]) == tens;
  }

  /** Every `u32` is read back from its label, so no label the program prints can overflow the parser. */
  lemma LabelRoundTrip(bps: nat)
    requires bps < U32_LIMIT
    ensures ToBps(Label(bps)) == Success(bps)
  {
    var whole, frac := Decimal(bps / 100), [Digit(bps % 100 / 10), Digit(bps % 10)];
    assert forall i :: 0 <= i < |whole| ==> IsDigit(whole[i]);
    assert AllDigits(frac);
    SplitAtDot(whole, frac);
    ParseDecimal(bps / 100);
    TwoDigitValue(bps % 100 / 10, bps % 10);
  }
}
