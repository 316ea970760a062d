/** The string operations of Rust's standard library that the parsers use. */
module Text {
  import opened Wrappers

  function AsciiLower(c: char): char {
    if 'A' <= c <= 'Z' then (c as int + 32) as char else c
  }

  /** `to_ascii_lowercase` */
  function Lower(s: string): (r: string)
    ensures |r| == |s| && forall i :: 0 <= i < |s| ==> r[i] == AsciiLower(s[i])
  {
    seq(|s|, i requires 0 <= i < |s| => AsciiLower(s[i]))
  }

  lemma LowerConcat(a: string, b: string)
    ensures Lower(a + b) == Lower(a) + Lower(b)
  {
  }

  /** `char::is_whitespace`: the Unicode White_Space property. */
  predicate IsWhitespace(c: char) {
    || '\U{0009}' <= c <= '\U{000D}' || c == ' ' || c == '\U{0085}' || c == '\U{00A0}' || c == '\U{1680}'
    || '\U{2000}' <= c <= '\U{200A}' || c == '\U{2028}' || c == '\U{2029}' || c == '\U{202F}'
    || c == '\U{205F}' || c == '\U{3000}'
  }

  function TrimStart(s: string): string {
    if s != [] && IsWhitespace(s[0]) then TrimStart(s[1..]) else s
  }

  function TrimEnd(s: string): string {
    if s != [] && IsWhitespace(s[|s| - 1]) then TrimEnd(s[..|s| - 1]) else s
  }

  /** `trim` */
  function Trim(s: string): string { TrimEnd(TrimStart(s)) }

  predicate Blanks(s: string) { forall i :: 0 <= i < |s| ==> IsWhitespace(s[i]) }

  lemma {:induction false} TrimStartMeans(s: string) returns (cut: string)
    ensures s == cut + TrimStart(s) && Blanks(cut)
    ensures TrimStart(s) != [] ==> !IsWhitespace(TrimStart(s)[0])
  {
    cut := [];
    if s != [] && IsWhitespace(s[0]) {
      var more := TrimStartMeans(s[1..]);
      cut := [s[0]] + more;
    }
  }

  lemma {:induction false} TrimEndMeans(s: string) returns (cut: string)
    ensures s == TrimEnd(s) + cut && Blanks(cut)
    ensures TrimEnd(s) != [] ==> !IsWhitespace(TrimEnd(s)[|TrimEnd(s)| - 1])
  {
    cut := [];
    if s != [] && IsWhitespace(s[|s| - 1]) {
      var more := TrimEndMeans(s[..|s| - 1]);
      cut := more + [s[|s| - 1]];
    }
  }

  /** Trimming cuts whitespace off both ends, all of it and nothing else. */
  lemma TrimMeans(s: string) returns (front: string, back: string)
    ensures s == front + Trim(s) + back && Blanks(front) && Blanks(back)
    ensures Trim(s) != [] ==> !IsWhitespace(Trim(s)[0]) && !IsWhitespace(Trim(s)[|Trim(s)| - 1])
  {
    front := TrimStartMeans(s);
    back := TrimEndMeans(TrimStart(s));
    if Trim(s) != [] {
      assert Trim(s)[0] == TrimStart(s)[0];
    }
  }

  predicate OccursAt(s: string, pattern: string, i: nat) {
    i + |pattern| <= |s| && s[i..i + |pattern|] == pattern
  }

  /** `find`: the first occurrence. */
  function Find(s: string, pattern: string): (r: Option<nat>)
    ensures r.Some? ==> OccursAt(s, pattern, r.value) && forall j: nat :: j < r.value ==> !OccursAt(s, pattern, j)
    ensures r.None? ==> forall j: nat :: !OccursAt(s, pattern, j)
  {
    FindFrom(s, pattern, 0)
  }

  function FindFrom(s: string, pattern: string, start: nat): (r: Option<nat>)
    ensures r.Some? ==> start <= r.value && OccursAt(s, pattern, r.value)
    ensures r.Some? ==> forall j: nat :: start <= j < r.value ==> !OccursAt(s, pattern, j)
    ensures r.None? ==> forall j: nat :: start <= j ==> !OccursAt(s, pattern, j)
    decreases |s| - start
  {
    if start + |pattern| > |s| then None
    else if OccursAt(s, pattern, start) then Some(start)
    else FindFrom(s, pattern, start + 1)
  }

  /** How many leading characters are not whitespace. */
  function WordLength(s: string): (n: nat)
    ensures n <= |s|
    ensures forall i :: 0 <= i < n ==> !IsWhitespace(s[i])
    ensures n < |s| ==> IsWhitespace(s[n])
  {
    if s == [] || IsWhitespace(s[0]) then 0 else 1 + WordLength(s[1..])
  }

  /** One `next()` of `split_whitespace`: the word and what follows it. */
  function NextWord(s: string): Option<(string, string)> {
    var rest := TrimStart(s);
    if rest == [] then None else Some((rest[..WordLength(rest)], rest[WordLength(rest)..]))
  }

  /** A word that is followed by whitespace or by the end is read back whole. */
  lemma NextWordReads(word: string, rest: string)
    requires word != [] && forall i :: 0 <= i < |word| ==> !IsWhitespace(word[i])
    requires rest == [] || IsWhitespace(rest[0])
    ensures NextWord(" " + word + rest) == Some((word, rest))
  {
    var s := " " + word + rest;
    assert s[1..] == word + rest;
    assert TrimStart(s) == word + rest;
    var n := WordLength(word + rest);
    assert (word + rest)[..|word|] == word && (word + rest)[|word|..] == rest;
    assert n == |word|;
  }
}
