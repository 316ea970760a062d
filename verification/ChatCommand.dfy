/** The chat approval command: how the frontend renders it and how the gateway parses it. */
module ChatCommand {
  import opened Wrappers
  import opened Text
  import HexCodec

  datatype Request = Request(ruleIdHex: string, canonicalRuleHashHex: string, approvalPhrase: string)

  datatype ParseError =
    | MissingPrefix
    | MissingRuleIdHex
    | InvalidRuleIdHex(value: string)
    | MissingCanonicalHashHex
    | InvalidCanonicalHashHex(value: string)
    | MissingApprovalPhraseMarker
    | EmptyApprovalPhrase

  const PREFIX: string := "execute w5g conditional deposit"
  const MARKER: string := "approval phrase"

  predicate IsHexToken(s: string, length: nat) {
    |s| == length && forall i :: 0 <= i < |s| ==> HexCodec.IsHexDigit(s[i])
  }

  function Parse(text: string): Result<Request, ParseError> {
    match Find(Lower(text), PREFIX)
    case None => Failure(MissingPrefix)
    case Some(prefixAt) => ParseAfter(text, prefixAt + |PREFIX|)
  }

  /** The rest of the parse, from behind the prefix on. */
  function ParseAfter(text: string, scanFrom: nat): Result<Request, ParseError>
    requires scanFrom <= |text|
  {
    match NextWord(text[scanFrom..])
    case None => Failure(MissingRuleIdHex)
    case Some((ruleId, afterId)) =>
      if !IsHexToken(ruleId, 32) then Failure(InvalidRuleIdHex(ruleId)) else
      match NextWord(afterId)
      case None => Failure(MissingCanonicalHashHex)
      case Some((hash, _)) =>
        if !IsHexToken(hash, 64) then Failure(InvalidCanonicalHashHex(hash)) else
        match Find(Lower(text)[scanFrom..], MARKER)
        case None => Failure(MissingApprovalPhraseMarker)
        case Some(i) =>
          var phrase := Trim(text[scanFrom + i + |MARKER|..]);
          if phrase == [] then Failure(EmptyApprovalPhrase) else Success(Request(ruleId, hash, phrase))
  }

  const RENDERED_PREFIX: string := "Execute W5g conditional deposit"

  /** What the frontend's command builder prints. */
  function Render(ruleId: string, hash: string, phrase: string): string {
    RENDERED_PREFIX + " " + ruleId + " " + hash + " with approval phrase " + phrase
  }

  // ── Round trip ──────────────────────────────────────────────────────────

  lemma PrefixSurvivesLowering(rest: string)
    ensures Find(Lower(RENDERED_PREFIX + rest), PREFIX) == Some(0)
  {
    LowerConcat(RENDERED_PREFIX, rest);
    assert Lower(RENDERED_PREFIX) == PREFIX;
    var lower := Lower(RENDERED_PREFIX + rest);
    assert lower[..|PREFIX|] == PREFIX;
    assert OccursAt(lower, PREFIX, 0);
  }

  /** Without a `p` before it, the rendered marker is the first one. */
  lemma FirstMarker(before: string, after: string)
    requires forall k :: 0 <= k < |before| ==> AsciiLower(before[k]) != 'p'
    ensures Find(Lower(before + (MARKER + after)), MARKER) == Some(|before|)
  {
    LowerConcat(before, MARKER + after);
    LowerConcat(MARKER, after);
    assert Lower(MARKER) == MARKER;
    var lower := Lower(before + (MARKER + after));
    assert lower == Lower(before) + (MARKER + Lower(after));
    assert lower[|before|..|before| + |MARKER|] == MARKER;
    assert OccursAt(lower, MARKER, |before|);
    forall j: nat | j < |before| ensures !OccursAt(lower, MARKER, j) {
      assert lower[j + 1] != MARKER[1];
      assert j + |MARKER| <= |lower| ==> lower[j..j + |MARKER|][1] == lower[j + 1];
    }
  }

  const WITH: string := " with "

  lemma NoEarlierMarker(ruleId: string, hash: string)
    requires IsHexToken(ruleId, 32) && IsHexToken(hash, 64)
    ensures
      var before := " " + ruleId + " " + hash + WITH;
      |before| == 104 && forall k :: 0 <= k < |before| ==> AsciiLower(before[k]) != 'p'
  {
    var before := " " + ruleId + " " + hash + WITH;
    forall k | 0 <= k < |before| ensures AsciiLower(before[k]) != 'p' {
      if 1 <= k < 33 {
        assert before[k] == ruleId[k - 1];
      } else if 34 <= k < 98 {
        assert before[k] == hash[k - 34];
      } else if 98 <= k {
        assert before[k] == WITH[k - 98];
      }
    }
  }

  lemma RenderShape(ruleId: string, hash: string, phrase: string)
    ensures Render(ruleId, hash, phrase) ==
      RENDERED_PREFIX + (" " + ruleId + (" " + hash + (WITH + (MARKER + (" " + phrase)))))
  {
    assert " with approval phrase " == WITH + MARKER + " ";
  }

  /** What the parser returns once each of its searches is known. */
  lemma ParseOf(text: string, ruleId: string, afterId: string, hash: string, afterHash: string, at: nat)
    requires Find(Lower(text), PREFIX) == Some(0)
    requires NextWord(text[|PREFIX|..]) == Some((ruleId, afterId)) && IsHexToken(ruleId, 32)
    requires NextWord(afterId) == Some((hash, afterHash)) && IsHexToken(hash, 64)
    requires Find(Lower(text[|PREFIX|..]), MARKER) == Some(at)
    ensures
      var phrase := Trim(text[|PREFIX| + at + |MARKER|..]);
      Parse(text) == if phrase == [] then Failure(EmptyApprovalPhrase) else Success(Request(ruleId, hash, phrase))
  {
    assert Lower(text)[|PREFIX|..] == Lower(text[|PREFIX|..]);
  }

  lemma PhraseAt(head: string, before: string, marker: string, phrase: string)
    ensures (head + (before + (marker + (" " + phrase))))[|head| + |before| + |marker|..] == " " + phrase
    ensures Trim(" " + phrase) == Trim(phrase)
  {
    assert (" " + phrase)[1..] == phrase;
  }

  /**
   Parsing a rendered command gives back its tokens and the trimmed phrase, for
   every phrase, including one that holds the marker again; a phrase that trims to
   nothing is refused.
   */
  lemma CommandRoundTrip(ruleId: string, hash: string, phrase: string)
    requires IsHexToken(ruleId, 32) && IsHexToken(hash, 64)
    ensures Parse(Render(ruleId, hash, phrase)) ==
      if Trim(phrase) == [] then Failure(EmptyApprovalPhrase) else Success(Request(ruleId, hash, Trim(phrase)))
  {
    var before := " " + ruleId + " " + hash + WITH;
    var afterHash := WITH + (MARKER + (" " + phrase));
    var afterId := " " + hash + afterHash;
    var rest := " " + ruleId + afterId;
    RenderShape(ruleId, hash, phrase);
    TailShape(ruleId, hash, MARKER + (" " + phrase));
    PrefixSurvivesLowering(rest);
    NextWordReads(ruleId, afterId);
    NextWordReads(hash, afterHash);
    NoEarlierMarker(ruleId, hash);
    FirstMarker(before, " " + phrase);
    DropPrefix(RENDERED_PREFIX, rest);
    ParseOf(Render(ruleId, hash, phrase), ruleId, afterId, hash, afterHash, 104);
    PhraseAt(RENDERED_PREFIX, before, MARKER, phrase);
  }

  lemma TailShape(ruleId: string, hash: string, tail: string)
    ensures " " + ruleId + (" " + hash + (WITH + tail)) == (" " + ruleId + " " + hash + WITH) + tail
  {
  }

  lemma DropPrefix(head: string, rest: string)
    ensures (head + rest)[|head|..] == rest
  {
  }

  /** The whole path of an approval: printed id and hash survive rendering, parsing and decoding. */
  lemma ApprovalRoundTrip(id: seq<HexCodec.Byte>, hash: seq<HexCodec.Byte>, phrase: string)
    requires |id| == HexCodec.RULE_ID_BYTES && |hash| == HexCodec.HASH_BYTES && Trim(phrase) != []
    ensures
      var parsed := Parse(Render(HexCodec.Encode(id), HexCodec.Encode(hash), phrase));
      && parsed.Success?
      && HexCodec.DecodeRuleId(parsed.value.ruleIdHex) == Some(id)
      && parsed.value.canonicalRuleHashHex == HexCodec.Encode(hash)
      && parsed.value.approvalPhrase == Trim(phrase)
  {
    CommandRoundTrip(HexCodec.Encode(id), HexCodec.Encode(hash), phrase);
    HexCodec.RuleIdRoundTrip(id);
  }

  // ── What is accepted ────────────────────────────────────────────────────

  /** What follows the first occurrence of a pattern, in any case. */
  function Behind(text: string, pattern: string): (rest: Option<string>)
    ensures rest.None? <==> forall at: nat :: !OccursAt(Lower(text), pattern, at)
    ensures rest.Some? ==> exists at: nat ::
      && OccursAt(Lower(text), pattern, at) && (forall j: nat :: j < at ==> !OccursAt(Lower(text), pattern, j))
      && rest.value == text[at + |pattern|..]
  {
    match Find(Lower(text), pattern)
    case None => None
    case Some(at) => Some(text[at + |pattern|..])
  }

  predicate HexWord(s: string, length: nat) {
    |s| == length && forall k :: 0 <= k < |s| ==> '0' <= s[k] <= '9' || 'a' <= s[k] <= 'f' || 'A' <= s[k] <= 'F'
  }

  /** The text behind the prefix: an id of 32 hexadecimal digits, a hash of 64, and somewhere the marker and the phrase. */
  predicate Reads(scan: string, r: Request, afterId: string, afterHash: string, tail: string) {
    && NextWord(scan) == Some((r.ruleIdHex, afterId)) && HexWord(r.ruleIdHex, 32)
    && NextWord(afterId) == Some((r.canonicalRuleHashHex, afterHash)) && HexWord(r.canonicalRuleHashHex, 64)
    && Behind(scan, MARKER) == Some(tail) && r.approvalPhrase == Trim(tail) && r.approvalPhrase != []
  }

  /** The text is a command for the request. */
  ghost predicate IsCommand(text: string, r: Request) {
    Behind(text, PREFIX).Some? && Readable(Behind(text, PREFIX).value, r)
  }

  ghost predicate Readable(scan: string, r: Request) {
    exists afterId, afterHash, tail :: Reads(scan, r, afterId, afterHash, tail)
  }

  lemma LowerOfSuffix(text: string, at: nat)
    requires at <= |text|
    ensures Lower(text)[at..] == Lower(text[at..])
  {
  }

  lemma SuffixOfSuffix(text: string, from: nat, more: nat)
    requires from + more <= |text|
    ensures text[from..][more..] == text[from + more..]
  {
  }

  /** Where the parser finds the marker and what it takes for the phrase. */
  lemma PhraseIsBehindMarker(text: string, from: nat)
    requires from <= |text|
    ensures Find(Lower(text)[from..], MARKER) == Find(Lower(text[from..]), MARKER)
    ensures
      var i := Find(Lower(text)[from..], MARKER);
      i.Some? ==> text[from + i.value + |MARKER|..] == text[from..][i.value + |MARKER|..]
  {
    LowerOfSuffix(text, from);
    var i := Find(Lower(text)[from..], MARKER);
    if i.Some? {
      SuffixOfSuffix(text, from, i.value + |MARKER|);
    }
  }

  lemma ReadingParses(text: string, from: nat, r: Request, afterId: string, afterHash: string, tail: string)
    requires from <= |text| && Reads(text[from..], r, afterId, afterHash, tail)
    ensures ParseAfter(text, from) == Success(r)
  {
    PhraseIsBehindMarker(text, from);
  }

  lemma ParsingReads(text: string, from: nat, r: Request) returns (afterId: string, afterHash: string, tail: string)
    requires from <= |text| && ParseAfter(text, from) == Success(r)
    ensures Reads(text[from..], r, afterId, afterHash, tail)
  {
    var scan := text[from..];
    PhraseIsBehindMarker(text, from);
    tail := scan[Find(Lower(scan), MARKER).value + |MARKER|..];
    afterId := NextWord(scan).value.1;
    afterHash := NextWord(afterId).value.1;
  }

  lemma ParsingIsReadable(text: string, from: nat, r: Request)
    requires from <= |text| && ParseAfter(text, from) == Success(r)
    ensures Readable(text[from..], r)
  {
    var afterId, afterHash, tail := ParsingReads(text, from, r);
  }

  lemma CommandParses(text: string, r: Request)
    requires IsCommand(text, r)
    ensures Parse(text) == Success(r)
  {
    var afterId, afterHash, tail :| Reads(Behind(text, PREFIX).value, r, afterId, afterHash, tail);
    ReadingParses(text, Find(Lower(text), PREFIX).value + |PREFIX|, r, afterId, afterHash, tail);
  }

  lemma ParsedIsCommand(text: string, r: Request)
    requires Parse(text) == Success(r)
    ensures IsCommand(text, r)
  {
    ParsingIsReadable(text, Find(Lower(text), PREFIX).value + |PREFIX|, r);
  }

  lemma MissingPrefixIff(text: string)
    ensures Parse(text) == Failure(MissingPrefix) <==> forall at: nat :: !OccursAt(Lower(text), PREFIX, at)
  {
  }

  /** For every text and every request: the parser answers with the request exactly when the text is a command for it. */
  lemma ParsesIffCommand(text: string, r: Request)
    ensures Parse(text) == Success(r) <==> IsCommand(text, r)
  {
    if Parse(text) == Success(r) {
      ParsedIsCommand(text, r);
    }
    if IsCommand(text, r) {
      CommandParses(text, r);
    }
  }
}
