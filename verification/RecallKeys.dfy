/** The words of a memory, told by their characters: white space separates them, however much of it. */
module RecallKeys {
  import opened Text
  import opened TextLaws
  import opened RecallRanking

  predicate HasNoBlank(s: string) {
    forall i :: 0 <= i < |s| ==> !IsWhitespace(s[i])
  }

  /** Words with white space before, between and behind them. */
  function Spaced(words: seq<string>, gaps: seq<string>): string
    requires |gaps| == |words| + 1
  {
    if words == [] then gaps[0] else gaps[0] + words[0] + Spaced(words[1..], gaps[1..])
  }

  predicate AreSpaced(words: seq<string>, gaps: seq<string>) {
    && |gaps| == |words| + 1
    && (forall i :: 0 <= i < |gaps| ==> IsBlank(gaps[i]))
    && (forall i :: 0 < i < |words| ==> gaps[i] != "")
    && forall i :: 0 <= i < |words| ==> words[i] != "" && HasNoBlank(words[i])
  }

  lemma {:induction false} BlankIsSkipped(gap: string, s: string)
    requires IsBlank(gap)
    ensures Words(gap + s) == Words(s)
  {
    if gap == "" {
      assert gap + s == s;
    } else {
      assert (gap + s)[1..] == gap[1..] + s;
      BlankIsSkipped(gap[1..], s);
    }
  }

  lemma {:induction false} WordHasItsLength(word: string, rest: string)
    requires HasNoBlank(word) && (rest == "" || IsWhitespace(rest[0]))
    ensures WordLength(word + rest) == |word|
  {
    if word == "" {
      assert word + rest == rest;
    } else {
      assert (word + rest)[1..] == word[1..] + rest;
      WordHasItsLength(word[1..], rest);
    }
  }

  lemma {:induction false} FirstWordIsTaken(word: string, rest: string)
    requires word != "" && HasNoBlank(word) && (rest == "" || IsWhitespace(rest[0]))
    ensures Words(word + rest) == [word] + Words(rest)
  {
    WordHasItsLength(word, rest);
    assert (word + rest)[0] == word[0];
    assert (word + rest)[..|word|] == word && (word + rest)[|word|..] == rest;
  }

  /** The words are found again whatever white space surrounds and separates them. */
  lemma {:induction false} SpacedWordsAreFound(words: seq<string>, gaps: seq<string>)
    requires AreSpaced(words, gaps)
    ensures Words(Spaced(words, gaps)) == words
  {
    if words == [] {
      BlankIsSkipped(gaps[0], "");
      assert gaps[0] + "" == gaps[0];
    } else {
      var rest := Spaced(words[1..], gaps[1..]);
      assert AreSpaced(words[1..], gaps[1..]);
      SpacedWordsAreFound(words[1..], gaps[1..]);
      assert gaps[0] + words[0] + rest == gaps[0] + (words[0] + rest);
      BlankIsSkipped(gaps[0], words[0] + rest);
      RestBeginsBlank(words, gaps);
      FirstWordIsTaken(words[0], rest);
    }
  }

  lemma {:induction false} RestBeginsBlank(words: seq<string>, gaps: seq<string>)
    requires AreSpaced(words, gaps) && words != []
    ensures var rest := Spaced(words[1..], gaps[1..]); rest == "" || IsWhitespace(rest[0])
  {
    var gap := gaps[1];
    assert gaps[1..][0] == gap;
  }

  /** A memory's key is its words, joined by single blanks and lower-cased; so white space makes no
      difference to it. */
  lemma {:induction false} SpacingDoesNotMatter(lower: string -> string, words: seq<string>, gaps: seq<string>,
      others: seq<string>)
    requires AreSpaced(words, gaps) && AreSpaced(words, others)
    ensures NormalizeKey(lower, Spaced(words, gaps)) == NormalizeKey(lower, Spaced(words, others))
    ensures |words| == 1 ==> NormalizeKey(lower, Spaced(words, gaps)) == lower(words[0])
    ensures |words| == 2 ==> NormalizeKey(lower, Spaced(words, gaps)) == lower(words[0] + " " + words[1])
  {
    SpacedWordsAreFound(words, gaps);
    SpacedWordsAreFound(words, others);
    if |words| == 2 {
      assert words[1..] == [words[1]];
      assert Join(words, " ") == words[0] + " " + words[1];
    }
  }
}
