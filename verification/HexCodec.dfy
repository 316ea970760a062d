/** Hexadecimal text for rule ids and hashes. */
module HexCodec {
  import opened Wrappers
  import opened Text

  type Byte = n: nat | n < 256

  const RULE_ID_BYTES: nat := 16
  const HASH_BYTES: nat := 32

  function HexDigit(n: nat): char
    requires n < 16
  {
    if n < 10 then ('0' as int + n) as char else ('a' as int + n - 10) as char
  }

  predicate IsHexDigit(c: char) {
    '0' <= c <= '9' || 'a' <= c <= 'f' || 'A' <= c <= 'F'
  }

  function HexValue(c: char): (n: nat)
    requires IsHexDigit(c)
    ensures n < 16 && HexDigit(n) == AsciiLower(c)
  {
    if '0' <= c <= '9' then c as int - '0' as int
    else if 'a' <= c <= 'f' then c as int - 'a' as int + 10
    else c as int - 'A' as int + 10
  }

  /** Two lower-case digits per byte. */
  function Encode(bytes: seq<Byte>): (s: string)
    ensures |s| == 2 * |bytes|
    ensures forall i :: 0 <= i < |s| ==> IsHexDigit(s[i]) && AsciiLower(s[i]) == s[i]
  {
    if bytes == [] then []
    else Encode(bytes[..|bytes| - 1]) + [HexDigit(bytes[|bytes| - 1] / 16), HexDigit(bytes[|bytes| - 1] % 16)]
  }

  /** `u8::from_str_radix(pair, 16)`: two digits, or a plus sign and one digit. */
  function ParsePair(hi: char, lo: char): (b: Option<Byte>)
    ensures b.Some? <==> (IsHexDigit(hi) || hi == '+') && IsHexDigit(lo)
  {
    if !IsHexDigit(lo) then None
    else if hi == '+' then Some(HexValue(lo))
    else if IsHexDigit(hi) then Some(16 * HexValue(hi) + HexValue(lo))
    else None
  }

  function DecodePairs(s: string, pairs: nat): (r: Option<seq<Byte>>)
    requires 2 * pairs <= |s|
    ensures r.Some? ==> |r.value| == pairs
    ensures r.Some? <==> forall i :: 0 <= i < pairs ==> ParsePair(s[2 * i], s[2 * i + 1]).Some?
  {
    if pairs == 0 then Some([])
    else
      match DecodePairs(s, pairs - 1)
      case None => None
      case Some(bytes) =>
        match ParsePair(s[2 * (pairs - 1)], s[2 * (pairs - 1) + 1])
        case None => None
        case Some(b) => Some(bytes + [b])
  }

  function DecodeRuleId(hex: string): Option<seq<Byte>> {
    var s := Trim(hex);
    if |s| != 2 * RULE_ID_BYTES then None else DecodePairs(s, RULE_ID_BYTES)
  }

  // ── The printing and parsing loops ──────────────────────────────────────

  method PrintHex(bytes: seq<Byte>) returns (s: string)
    ensures s == Encode(bytes)
  {
    s := "";
    for i := 0 to |bytes|
      invariant s == Encode(bytes[..i])
    {
      s := s + [HexDigit(bytes[i] / 16), HexDigit(bytes[i] % 16)];
      assert bytes[..i + 1][..i] == bytes[..i];
    }
    assert bytes[..|bytes|] == bytes;
  }

  method DecodeRuleIdHex(hex: string) returns (id: Option<seq<Byte>>)
    ensures id == DecodeRuleId(hex)
  {
    var s := Trim(hex);
    if |s| != 2 * RULE_ID_BYTES {
      return None;
    }
    var bytes: seq<Byte> := [];
    for i := 0 to RULE_ID_BYTES
      invariant DecodePairs(s, i) == Some(bytes)
    {
      var b := ParsePair(s[2 * i], s[2 * i + 1]);
      if b.None? {
        return None;
      }
      bytes := bytes + [b.value];
    }
    return Some(bytes);
  }

  // ── Round trips ─────────────────────────────────────────────────────────

  function Digits(b: Byte): string { [HexDigit(b / 16), HexDigit(b % 16)] }

  lemma EncodeAppend(bytes: seq<Byte>, b: Byte)
    ensures Encode(bytes + [b]) == Encode(bytes) + Digits(b)
  {
    assert (bytes + [b])[..|bytes|] == bytes;
  }

  lemma ParseDigits(b: Byte)
    ensures ParsePair(Digits(b)[0], Digits(b)[1]) == Some(b)
  {
    assert HexValue(HexDigit(b / 16)) == b / 16 && HexValue(HexDigit(b % 16)) == b % 16;
  }

  /** Reading pairs only looks at the pairs read. */
  lemma {:induction false} DecodePrefix(s: string, suffix: string, pairs: nat)
    requires 2 * pairs <= |s|
    ensures DecodePairs(s + suffix, pairs) == DecodePairs(s, pairs)
  {
    if pairs > 0 {
      DecodePrefix(s, suffix, pairs - 1);
    }
  }

  lemma DecodeAppend(s: string, pairs: nat, bytes: seq<Byte>, b: Byte)
    requires |s| == 2 * pairs && DecodePairs(s, pairs) == Some(bytes)
    ensures DecodePairs(s + Digits(b), pairs + 1) == Some(bytes + [b])
  {
    DecodePrefix(s, Digits(b), pairs);
    ParseDigits(b);
    assert (s + Digits(b))[2 * pairs] == Digits(b)[0] && (s + Digits(b))[2 * pairs + 1] == Digits(b)[1];
  }

  lemma {:induction false} DecodeEncodePairs(bytes: seq<Byte>)
    ensures DecodePairs(Encode(bytes), |bytes|) == Some(bytes)
  {
    if bytes != [] {
      var init, b := bytes[..|bytes| - 1], bytes[|bytes| - 1];
      assert bytes == init + [b];
      DecodeEncodePairs(init);
      EncodeAppend(init, b);
      DecodeAppend(Encode(init), |init|, init, b);
    }
  }

  lemma TrimNothing(s: string)
    requires s != [] && !IsWhitespace(s[0]) && !IsWhitespace(s[|s| - 1])
    ensures Trim(s) == s
  {
  }

  /** Printing a rule id and reading it back yields the id. */
  lemma RuleIdRoundTrip(id: seq<Byte>)
    requires |id| == RULE_ID_BYTES
    ensures DecodeRuleId(Encode(id)) == Some(id)
  {
    var s := Encode(id);
    assert IsHexDigit(s[0]) && IsHexDigit(s[|s| - 1]);
    TrimNothing(s);
    DecodeEncodePairs(id);
  }

  lemma PairDigits(hi: char, lo: char)
    requires ParsePair(hi, lo).Some?
    ensures
      var b := ParsePair(hi, lo).value;
      && HexDigit(b % 16) == AsciiLower(lo)
      && (HexDigit(b / 16) == AsciiLower(hi) <==> hi != '+')
  {
    var b := ParsePair(hi, lo).value;
    if hi != '+' {
      assert b == 16 * HexValue(hi) + HexValue(lo);
      assert b / 16 == HexValue(hi) && b % 16 == HexValue(lo);
    }
  }

  lemma LowerAppend(s: string, n: nat)
    requires n + 2 <= |s|
    ensures Lower(s[..n + 2]) == Lower(s[..n]) + [AsciiLower(s[n]), AsciiLower(s[n + 1])]
  {
  }

  /** Two characters print back as themselves exactly when the first is no plus sign. */
  lemma PairPrintsBack(hi: char, lo: char)
    requires ParsePair(hi, lo).Some?
    ensures Digits(ParsePair(hi, lo).value) == [AsciiLower(hi), AsciiLower(lo)] <==> hi != '+'
  {
    PairDigits(hi, lo);
  }

  lemma OnePairMore(s: string, n: nat, bytes: seq<Byte>)
    requires 2 * n + 2 <= |s| && DecodePairs(s, n) == Some(bytes) && DecodePairs(s, n + 1).Some?
    ensures Encode(DecodePairs(s, n + 1).value) == Lower(s[..2 * n + 2]) <==>
              Encode(bytes) == Lower(s[..2 * n]) && s[2 * n] != '+'
  {
    var hi, lo := s[2 * n], s[2 * n + 1];
    var b := ParsePair(hi, lo).value;
    assert DecodePairs(s, n + 1) == Some(bytes + [b]);
    EncodeAppend(bytes, b);
    LowerAppend(s, 2 * n);
    PairPrintsBack(hi, lo);
    SameParts(Encode(bytes), Lower(s[..2 * n]), Digits(b), [AsciiLower(hi), AsciiLower(lo)]);
  }

  predicate NoPlusLeads(s: string, pairs: nat)
    requires 2 * pairs <= |s|
  {
    forall i :: 0 <= i < pairs ==> s[2 * i] != '+'
  }

  lemma {:induction false} EncodeDecodePairs(s: string, pairs: nat)
    requires 2 * pairs <= |s| && DecodePairs(s, pairs).Some?
    ensures Encode(DecodePairs(s, pairs).value) == Lower(s[..2 * pairs]) <==> NoPlusLeads(s, pairs)
  {
    if pairs > 0 {
      EncodeDecodePairs(s, pairs - 1);
      OnePairMore(s, pairs - 1, DecodePairs(s, pairs - 1).value);
    }
  }

  lemma SameParts(a: string, a': string, b: string, b': string)
    requires |a| == |a'|
    ensures a + b == a' + b' <==> a == a' && b == b'
  {
    if a + b == a' + b' {
      assert a == (a + b)[..|a|] && b == (a + b)[|a|..];
    }
  }

  /**
   An accepted text is the printed form of the id it decodes to, up to letter
   case and surrounding whitespace, exactly when it holds no plus sign.
   */
  lemma AcceptedTextIsCanonical(hex: string)
    requires DecodeRuleId(hex).Some?
    ensures Encode(DecodeRuleId(hex).value) == Lower(Trim(hex)) <==> '+' !in Trim(hex)
  {
    var s := Trim(hex);
    EncodeDecodePairs(s, RULE_ID_BYTES);
    assert s[..2 * RULE_ID_BYTES] == s;
    assert forall i :: 0 <= i < RULE_ID_BYTES ==> ParsePair(s[2 * i], s[2 * i + 1]).Some?;
    forall i | 0 <= i < |s| && s[i] == '+' ensures exists j :: 0 <= j < RULE_ID_BYTES && s[2 * j] == '+' {
      assert ParsePair(s[2 * (i / 2)], s[2 * (i / 2) + 1]).Some?;
      assert i == 2 * (i / 2);
    }
  }

  /** The other case occurs: sixteen signed zeros are read as the all-zero id. */
  lemma SignedZerosAreAccepted()
    ensures
      var text := "+0+0+0+0+0+0+0+0+0+0+0+0+0+0+0+0";
      DecodeRuleId(text).Some? && Encode(DecodeRuleId(text).value) != Lower(Trim(text))
  {
    var text := "+0+0+0+0+0+0+0+0+0+0+0+0+0+0+0+0";
    TrimNothing(text);
    forall i | 0 <= i < RULE_ID_BYTES ensures ParsePair(text[2 * i], text[2 * i + 1]).Some? {}
    AcceptedTextIsCanonical(text);
  }
}
