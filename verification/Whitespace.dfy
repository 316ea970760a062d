/** Whitespace normalisation of chat commands: a one-pass loop against splitting into words and joining them. */
module Whitespace {

  /** The words of a text, the last one outermost. */
  datatype Words = NoWords | Snoc(before: Words, word: string)

  predicate IsAsciiWhitespace(c: char) {
    c == ' ' || c == '\t' || c == '\n' || c == '\r' || c == '\U{000C}'
  }

  /** A non-empty run without whitespace. */
  predicate IsWord(w: string) {
    w != [] && forall i :: 0 <= i < |w| ==> !IsAsciiWhitespace(w[i])
  }

  predicate AllWords(words: Words) {
    words.Snoc? ==> IsWord(words.word) && AllWords(words.before)
  }

  /** Whether a text stops inside a word. */
  predicate InWord(s: string) { s != [] && !IsAsciiWhitespace(s[|s| - 1]) }

  /** One more character: it extends the word the text stops in, starts a word, or separates. */
  function Add(words: Words, inWord: bool, c: char): Words {
    if IsAsciiWhitespace(c) then words
    else if inWord && words.Snoc? then Snoc(words.before, words.word + [c])
    else Snoc(words, [c])
  }

  /** The maximal runs of non-whitespace, in order. */
  function Split(s: string): Words {
    if s == [] then NoWords else Add(Split(s[..|s| - 1]), InWord(s[..|s| - 1]), s[|s| - 1])
  }

  function Join(words: Words): string {
    match words
    case NoWords => []
    case Snoc(before, w) => if before.NoWords? then w else Join(before) + [' '] + w
  }

  lemma SplitStep(s: string, c: char)
    ensures Split(s + [c]) == Add(Split(s), InWord(s), c)
  {
    assert (s + [c])[..|s|] == s;
  }

  lemma {:induction false} SplitIntoWords(s: string)
    ensures AllWords(Split(s)) && (InWord(s) ==> Split(s).Snoc?)
  {
    if s != [] {
      SplitIntoWords(s[..|s| - 1]);
    }
  }

  /** Joining follows a character added inside a word, and one that starts a word. */
  lemma JoinStep(words: Words, inWord: bool, c: char)
    requires !IsAsciiWhitespace(c) && (inWord ==> words.Snoc?)
    ensures Join(Add(words, inWord, c)) ==
            if inWord then Join(words) + [c] else if words.NoWords? then [c] else Join(words) + [' '] + [c]
  {
    if inWord && words.before.Snoc? {
      assert Join(words.before) + [' '] + (words.word + [c]) == Join(words.before) + [' '] + words.word + [c];
    }
  }

  lemma JoinEndsInWord(words: Words)
    requires words.Snoc? && AllWords(words)
    ensures InWord(Join(words))
  {
    var w := words.word;
    assert !IsAsciiWhitespace(w[|w| - 1]);
    assert Join(words)[|Join(words)| - 1] == w[|w| - 1];
  }

  lemma {:induction false} WordAppended(s: string, w: string)
    requires IsWord(w) && !InWord(s)
    ensures Split(s + w) == Snoc(Split(s), w) && InWord(s + w)
    decreases |w|
  {
    var init, c := w[..|w| - 1], w[|w| - 1];
    assert w == init + [c];
    if init == [] {
      assert w == [c];
      SplitStep(s, c);
    } else {
      assert IsWord(init);
      WordAppended(s, init);
      SplitStep(s + init, c);
      assert s + w == s + init + [c];
    }
  }

  /** A list of words is what its joined text splits into. */
  lemma {:induction false} SplitJoin(words: Words)
    requires AllWords(words)
    ensures Split(Join(words)) == words
  {
    if words.Snoc? {
      SplitJoin(words.before);
      if words.before.NoWords? {
        WordAppended([], words.word);
        assert [] + words.word == words.word;
      } else {
        var s := Join(words.before);
        SplitStep(s, ' ');
        WordAppended(s + [' '], words.word);
      }
    }
  }

  /** Normalising keeps the words and reaches a fixed point at once. */
  lemma NormalFormIsStable(s: string)
    ensures Split(Join(Split(s))) == Split(s)
    ensures Join(Split(Join(Split(s)))) == Join(Split(s))
  {
    SplitIntoWords(s);
    SplitJoin(Split(s));
  }

  /** The output after a prefix: its words joined, and a separator when whitespace was just read. */
  predicate NormalSoFar(prefix: string, inWs: bool, out: string) {
    && inWs == (prefix != [] && !InWord(prefix))
    && out == if inWs && Split(prefix).Snoc? then Join(Split(prefix)) + [' '] else Join(Split(prefix))
  }

  lemma NothingToJoin(words: Words)
    requires AllWords(words)
    ensures Join(words) == [] <==> words.NoWords?
  {
    if words.Snoc? {
      JoinEndsInWord(words);
    }
  }

  lemma NormalStep(prefix: string, c: char, inWs: bool, out: string)
    requires NormalSoFar(prefix, inWs, out)
    ensures NormalSoFar(prefix + [c], IsAsciiWhitespace(c),
                        if !IsAsciiWhitespace(c) then out + [c]
                        else if !inWs && out != [] then out + [' ']
                        else out)
  {
    SplitIntoWords(prefix);
    SplitStep(prefix, c);
    NothingToJoin(Split(prefix));
    if !IsAsciiWhitespace(c) {
      JoinStep(Split(prefix), InWord(prefix), c);
    }
  }

  lemma JoinIsTrimmed(s: string)
    ensures Join(Split(s)) == [] || InWord(Join(Split(s)))
  {
    SplitIntoWords(s);
    if Split(s).Snoc? {
      JoinEndsInWord(Split(s));
    }
  }

  /** Pops what whitespace at the end of the input left behind. */
  method PopSpaces(text: string, ghost core: string) returns (out: string)
    requires core == [] || InWord(core)
    requires text == core || text == core + [' ']
    ensures out == core
  {
    out := text;
    while out != [] && out[|out| - 1] == ' '
      invariant out == core || out == core + [' ']
    {
      out := out[..|out| - 1];
    }
  }

  method NormalizeWhitespace(s: string) returns (out: string)
    ensures out == Join(Split(s))
  {
    out := [];
    var inWs := false;
    var i := 0;
    ghost var seen: string := [];
    while i < |s|
      invariant i <= |s| && seen == s[..i] && NormalSoFar(seen, inWs, out)
    {
      var c := s[i];
      NormalStep(seen, c, inWs, out);
      if IsAsciiWhitespace(c) {
        if !inWs && out != [] {
          out := out + [' '];
        }
        inWs := true;
      } else {
        out := out + [c];
        inWs := false;
      }
      seen := seen + [c];
      i := i + 1;
    }
    assert seen == s;
    JoinIsTrimmed(s);
    out := PopSpaces(out, Join(Split(s)));
  }
}
