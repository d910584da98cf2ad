/** What the operations on `str` do, told by characters. */
module TextLaws {
  import opened Text

  /** The characters of the Unicode property White_Space, by their codes. */
  lemma {:induction false} WhitespaceIs(c: char)
    ensures IsWhitespace(c) <==> c as int in {
        9, 10, 11, 12, 13, 32, 133, 160, 5760, 8192, 8193, 8194, 8195, 8196, 8197, 8198, 8199, 8200, 8201, 8202,
        8232, 8233, 8239, 8287, 12288}
  {
  }

  predicate IsBlank(s: string) {
    forall i :: 0 <= i < |s| ==> IsWhitespace(s[i])
  }

  /** No white space at either end. */
  predicate IsTrimmed(s: string) {
    s != "" ==> !IsWhitespace(s[0]) && !IsWhitespace(s[|s| - 1])
  }

  lemma {:induction false} GapIsDropped(gap: string, text: string)
    requires IsBlank(gap) && (text != "" ==> !IsWhitespace(text[0]))
    ensures TrimStart(gap + text) == text
  {
    if gap == "" {
      assert gap + text == text;
    } else {
      assert (gap + text)[1..] == gap[1..] + text;
      GapIsDropped(gap[1..], text);
    }
  }

  lemma {:induction false} TrimEndOf(core: string, after: string)
    requires IsBlank(after) && (core != "" ==> !IsWhitespace(core[|core| - 1]))
    ensures TrimEnd(core + after) == core
  {
    var s := core + after;
    if after == "" {
      assert s == core;
    } else {
      assert s[..|s| - 1] == core + after[..|after| - 1];
      TrimEndOf(core, after[..|after| - 1]);
    }
  }

  /** Trimming takes the white space off both ends, and nothing else. */
  lemma {:induction false} TrimOf(before: string, core: string, after: string)
    requires IsBlank(before) && IsBlank(after) && IsTrimmed(core)
    ensures Trim(before + core + after) == core
  {
    if core == "" {
      assert before + core + after == (before + after) + "";
      GapIsDropped(before + after, "");
    } else {
      assert before + core + after == before + (core + after);
      GapIsDropped(before, core + after);
      TrimEndOf(core, after);
    }
  }
}
