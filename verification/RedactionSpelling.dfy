/** Letter case: sensitive keys are found however they are spelled, and what stands behind them is gone
    from the text that is written. Told by character codes, without lower-casing anything. */
module RedactionSpelling {
  import opened Options
  import opened Text
  import opened Redaction
  import opened RedactionTheorems
  import opened RedactionPasses
  import opened RedactionOfJson

  /** The same character, or an ASCII capital and its small letter. */
  predicate SameLetter(a: char, b: char) {
    var m, n := a as int, b as int;
    m == n || (65 <= m <= 90 && n == m + 32) || (65 <= n <= 90 && m == n + 32)
  }

  predicate SameSpelling(s: string, t: string) {
    |s| == |t| && forall i :: 0 <= i < |s| ==> SameLetter(s[i], t[i])
  }

  predicate HasNoCapitals(s: string) {
    forall i :: 0 <= i < |s| ==> !(65 <= s[i] as int <= 90)
  }

  predicate SpelledAt(word: string, s: string, at: int) {
    0 <= at && at + |word| <= |s| && SameSpelling(s[at..at + |word|], word)
  }

  lemma {:induction false} SameLetterIff(a: char, b: char)
    ensures LowerChar(a) == LowerChar(b) <==> SameLetter(a, b)
    ensures !(65 <= b as int <= 90) ==> LowerChar(b) == b
  {
  }

  /** A key without capitals is found exactly where it is spelled, in whatever letter case. */
  lemma {:induction false} OccursIffSpelled(needle: string, s: string, at: nat)
    requires HasNoCapitals(needle)
    ensures OccursAt(needle, s, at) <==> SpelledAt(needle, s, at)
  {
    OccurrenceChars(needle, s, at);
    if at + |needle| <= |s| {
      forall k | 0 <= k < |needle|
        ensures LowerChar(s[at + k]) == needle[k] <==> SameLetter(s[at..at + |needle|][k], needle[k])
      {
        SameLetterIff(s[at + k], needle[k]);
      }
    }
  }

  /** Texts that differ in letter case only have the same occurrences of any key. */
  lemma {:induction false} CaseDoesNotMatter(needle: string, s: string, t: string, at: nat)
    requires SameSpelling(s, t)
    ensures OccursAt(needle, s, at) <==> OccursAt(needle, t, at)
  {
    forall i | 0 <= i < |s|
      ensures LowerChar(s[i]) == LowerChar(t[i])
    {
      SameLetterIff(s[i], t[i]);
    }
    OccurrenceChars(needle, s, at);
    OccurrenceChars(needle, t, at);
  }

  // ---------------------------------------------------------------------------------------------
  // Keys of JSON objects.

  predicate IsSensitiveWord(word: string) {
    word in {"api_key", "apikey", "token", "secret", "password", "authorization", "access_token", "refresh_token"}
  }

  lemma {:induction false} SensitiveWordsAreKeys(word: string)
    ensures IsSensitiveWord(word) <==> word in KEYS
    ensures IsSensitiveWord(word) ==> IsKeyWord(word) && HasNoCapitals(word)
  {
    if word in KEYS {
      var k :| 0 <= k < |KEYS| && KEYS[k] == word;
    } else {
      assert KEYS[0] == "api_key" && KEYS[1] == "apikey" && KEYS[2] == "token" && KEYS[3] == "secret";
      assert KEYS[4] == "password" && KEYS[5] == "authorization" && KEYS[6] == "access_token";
      assert KEYS[7] == "refresh_token";
    }
  }

  lemma {:induction false} ContainsIffOccurs(key: string, word: string)
    ensures Contains(Lower(key), word) <==> exists at :: 0 <= at <= |key| && OccursAt(word, key, at)
  {
    var lower := Lower(key);
    if Contains(lower, word) {
      var i :| 0 <= i <= |lower| && word <= lower[i..];
      assert lower[i..][..|word|] == lower[i..i + |word|];
      assert OccursAt(word, key, i);
    }
    if at :| 0 <= at <= |key| && OccursAt(word, key, at) {
      assert lower[at..][..|word|] == lower[at..at + |word|];
    }
  }

  /** The key of a JSON object is sensitive exactly when it contains a sensitive word, in any letter case. */
  lemma {:induction false} SensitiveKeyIff(key: string)
    ensures IsSensitiveKey(key) <==> exists word, at :: IsSensitiveWord(word) && SpelledAt(word, key, at)
  {
    if IsSensitiveKey(key) {
      var k :| 0 <= k < |KEYS| && Contains(Lower(key), KEYS[k]);
      ContainsIffOccurs(key, KEYS[k]);
      var at :| 0 <= at <= |key| && OccursAt(KEYS[k], key, at);
      SensitiveWordsAreKeys(KEYS[k]);
      OccursIffSpelled(KEYS[k], key, at);
    }
    if word, at :| IsSensitiveWord(word) && SpelledAt(word, key, at) {
      SensitiveWordsAreKeys(word);
      OccursIffSpelled(word, key, at);
      ContainsIffOccurs(key, word);
      var k :| 0 <= k < |KEYS| && KEYS[k] == word;
      assert Contains(Lower(key), KEYS[k]);
    }
  }

  // ---------------------------------------------------------------------------------------------
  // Log text: a key at the end of `head`, and what follows it.

  /** A value never contains these characters. */
  predicate EndsAValue(c: char) {
    IsWhitespace(c) || c in {'"', '\'', ',', '&', ';', ')', '(', ']', '[', '{', '}'}
  }

  lemma {:induction false} TerminatorsEndValues(c: char)
    ensures IsTerminator(c) <==> EndsAValue(c)
  {
  }

  /** Nothing that a pass looks for stands in `head`, except that a key may be its very end. */
  ghost predicate OnlyAtItsEnd(head: string, needle: string) {
    forall p :: 0 <= p && OccursAt(needle, head, p) ==> p + |needle| == |head|
  }

  predicate EndsIn(head: string, needle: string) {
    |needle| <= |head| && OccursAt(needle, head, |head| - |needle|)
  }

  predicate IsBoundary(head: string) {
    head != "" && !IsKeyChar(LowerChar(head[|head| - 1]))
  }

  /** A key does not reach over the end of `head`. */
  lemma {:induction false} OccurrenceOnOneSide(needle: string, head: string, rest: string, p: nat)
    requires IsNeedle(needle) && IsBoundary(head) && OnlyAtItsEnd(head, needle)
    requires OccursAt(needle, head + rest, p)
    ensures (p + |needle| == |head| && EndsIn(head, needle)) || (|head| <= p && OccursAt(needle, rest, p - |head|))
  {
    CharsOfOccurrence(needle, head + rest, p);
    assert (head + rest)[|head| - 1] == head[|head| - 1];
    if p + |needle| <= |head| {
      OccurrenceInPrefix(needle, head, rest, p);
    } else {
      assert |head| <= p;
      OccurrenceInSuffix(needle, head + rest, |head|, p - |head|);
      assert (head + rest)[|head|..] == rest;
    }
  }

  predicate BeginsAValue(rest: string) {
    rest != "" && !EndsAValue(rest[0])
  }

  /** What stands behind the key after a step: the marker if there was a value. */
  lemma {:induction false} StepResult(pass: Pass, s: string, i: nat) returns (more: string)
    requires pass.needle != "" && Find(pass.needle, s) == Some(i) && i + |pass.needle| < |s|
    requires Redact(pass.needle, pass.isAuthorization, s).Some?
    ensures more != "" && (!EndsAValue(s[i + |pass.needle|]) ==> more[0] == '*')
    ensures Redact(pass.needle, pass.isAuthorization, s) == Some(s[..i + |pass.needle|] + more)
  {
    var end := i + |pass.needle|;
    var n := ValueLength(s[end..], pass.isAuthorization);
    var next := end + if n > 0 then n else 1;
    TerminatorsEndValues(s[end]);
    OnePassStep(pass.needle, pass.isAuthorization, s, i, n, next);
    more := ReplacementFor(s[end..], n) + Redact(pass.needle, pass.isAuthorization, s[next..]).value;
    AppendTwice(s[..end], ReplacementFor(s[end..], n), Redact(pass.needle, pass.isAuthorization, s[next..]).value);
  }

  lemma {:induction false} AppendTwice(a: string, b: string, c: string)
    ensures a + b + c == a + (b + c)
  {
  }

  lemma {:induction false} PartsOfHeadAndRest(head: string, rest: string, end: nat, more: string)
    requires |head| <= end <= |head + rest|
    ensures (head + rest)[..end] + more == head + (rest[..end - |head|] + more)
  {
  }

  lemma {:induction false} StillBeginsAValue(rest: string, n: nat, more: string)
    requires BeginsAValue(rest) && n <= |rest| && (n == 0 ==> more != "" && more[0] == '*')
    ensures BeginsAValue(rest[..n] + more)
  {
  }

  /** A pass leaves `head` alone, and a value stays a value behind it. */
  lemma {:induction false} PassKeepsHead(pass: Pass, head: string, rest: string) returns (rest': string)
    requires IsNeedle(pass.needle) && IsBoundary(head) && OnlyAtItsEnd(head, pass.needle) && BeginsAValue(rest)
    requires Redact(pass.needle, pass.isAuthorization, head + rest).Some?
    ensures BeginsAValue(rest')
    ensures Redact(pass.needle, pass.isAuthorization, head + rest) == Some(head + rest')
  {
    var s := head + rest;
    FindFromIsFirst(pass.needle, s, 0);
    var at := Find(pass.needle, s);
    if at.Some? && at.value + |pass.needle| < |s| {
      var end := at.value + |pass.needle|;
      OccurrenceOnOneSide(pass.needle, head, rest, at.value);
      var more := StepResult(pass, s, at.value);
      rest' := rest[..end - |head|] + more;
      assert end == |head| ==> s[end] == rest[0];
      PartsOfHeadAndRest(head, rest, end, more);
      StillBeginsAValue(rest, end - |head|, more);
    } else {
      rest' := rest;
      NothingLeft(pass.needle, pass.isAuthorization, s);
    }
  }

  lemma {:induction false} PassesKeepHead(passes: seq<Pass>, head: string, rest: string) returns (rest': string)
    requires IsBoundary(head) && BeginsAValue(rest)
    requires forall i :: 0 <= i < |passes| ==> IsNeedle(passes[i].needle) && OnlyAtItsEnd(head, passes[i].needle)
    requires RunPasses(passes, head + rest).Some?
    ensures BeginsAValue(rest') && RunPasses(passes, head + rest) == Some(head + rest')
    decreases |passes|
  {
    rest' := rest;
    if passes != [] {
      rest' := PassKeepsHead(passes[0], head, rest);
      rest' := PassesKeepHead(passes[1..], head, rest');
    }
  }

  /** The word and one of the separators. */
  predicate IsKeyOf(needle: string, word: string) {
    needle == word + "=" || needle == word + ":"
  }

  /** What the passes look for. */
  ghost predicate IsSearched(needle: string) {
    needle == "bearer " || exists word :: IsSensitiveWord(word) && IsKeyOf(needle, word)
  }

  /** In `head` nothing is spelled that the passes look for, except at its very end. */
  ghost predicate IsFresh(head: string) {
    forall needle, at :: IsSearched(needle) && SpelledAt(needle, head, at) ==> at + |needle| == |head|
  }

  predicate EndsSpelled(head: string, needle: string) {
    SpelledAt(needle, head, |head| - |needle|)
  }

  function AllPasses(): seq<Pass> {
    KeyPasses(KEYS) + [Pass(BEARER, false)]
  }

  predicate IsPassFor(pass: Pass, keys: seq<string>) {
    exists k :: 0 <= k < |keys| && IsPassOf(pass, keys[k])
  }

  predicate IsPassOf(pass: Pass, word: string) {
    IsKeyOf(pass.needle, word) && pass.isAuthorization == (word == "authorization")
  }

  lemma {:induction false} KeyPassesAreForKeys(keys: seq<string>)
    ensures forall i :: 0 <= i < |KeyPasses(keys)| ==> IsPassFor(KeyPasses(keys)[i], keys)
  {
    if keys != [] {
      var passes, more := KeyPasses(keys), KeyPasses(keys[1..]);
      KeyPassesAreForKeys(keys[1..]);
      forall i | 0 <= i < |passes|
        ensures IsPassFor(passes[i], keys)
      {
        if i < 2 {
          assert IsPassOf(passes[i], keys[0]);
        } else {
          assert passes[i] == more[i - 2];
          var k :| 0 <= k < |keys[1..]| && IsPassOf(more[i - 2], keys[1..][k]);
          assert IsPassOf(passes[i], keys[k + 1]);
        }
      }
    }
  }

  /** A pass of the log filter looks for one of these, and whether "bearer " belongs to the value is
      decided by the word. */
  ghost predicate IsRightPass(pass: Pass) {
    && IsSearched(pass.needle) && IsNeedle(pass.needle) && HasNoCapitals(pass.needle)
    && (|| (pass.needle == "bearer " && !pass.isAuthorization)
        || (exists word :: IsSensitiveWord(word) && IsPassOf(pass, word)))
  }

  lemma {:induction false} KeyPassIsRight(pass: Pass)
    requires IsPassFor(pass, KEYS)
    ensures IsRightPass(pass) && pass.needle != "bearer "
  {
    var k :| 0 <= k < |KEYS| && IsPassOf(pass, KEYS[k]);
    SensitiveWordsAreKeys(KEYS[k]);
    assert IsSearched(pass.needle);
    SearchedIsNeedle(pass.needle);
    assert pass.needle[|pass.needle| - 1] in "=:";
  }

  lemma {:induction false} PassesAreRight()
    ensures forall i :: 0 <= i < |AllPasses()| ==> IsRightPass(AllPasses()[i])
    ensures forall i :: 0 <= i < |KeyPasses(KEYS)| ==> KeyPasses(KEYS)[i].needle != "bearer "
  {
    var passes := KeyPasses(KEYS);
    KeyPassesAreForKeys(KEYS);
    forall i | 0 <= i < |passes|
      ensures IsRightPass(passes[i]) && passes[i].needle != "bearer "
    {
      KeyPassIsRight(passes[i]);
    }
    SearchedIsNeedle("bearer ");
  }

  lemma {:induction false} KeyIsNeedle(word: string, needle: string)
    requires IsKeyWord(word) && HasNoCapitals(word) && IsKeyOf(needle, word)
    ensures HasNoCapitals(needle) && IsNeedle(needle) && needle[|needle| - 1] != ' '
  {
    assert forall i :: 0 <= i < |word| ==> needle[i] == word[i];
  }

  lemma {:induction false} SearchedIsNeedle(needle: string)
    requires IsSearched(needle)
    ensures HasNoCapitals(needle) && IsNeedle(needle)
  {
    if needle != "bearer " {
      var word :| IsSensitiveWord(word) && IsKeyOf(needle, word);
      SensitiveWordsAreKeys(word);
      KeyIsNeedle(word, needle);
    }
  }

  lemma {:induction false} KeyIsSearched(word: string, needle: string)
    requires IsSensitiveWord(word) && IsKeyOf(needle, word)
    ensures IsSearched(needle) && needle != "bearer "
  {
    assert needle[|needle| - 1] in "=:";
  }

  lemma {:induction false} FreshForAll(head: string)
    requires IsFresh(head)
    ensures forall i :: 0 <= i < |AllPasses()| ==>
              IsNeedle(AllPasses()[i].needle) && OnlyAtItsEnd(head, AllPasses()[i].needle)
  {
    PassesAreRight();
    forall i | 0 <= i < |AllPasses()|
      ensures OnlyAtItsEnd(head, AllPasses()[i].needle)
    {
      FreshForOne(head, AllPasses()[i].needle);
    }
  }

  lemma {:induction false} FreshForOne(head: string, needle: string)
    requires IsFresh(head) && IsSearched(needle) && HasNoCapitals(needle)
    ensures OnlyAtItsEnd(head, needle)
  {
    forall p | 0 <= p && OccursAt(needle, head, p)
      ensures p + |needle| == |head|
    {
      OccursIffSpelled(needle, head, p);
    }
  }

  lemma {:induction false} SpelledEndIsBoundary(head: string, needle: string)
    requires IsSearched(needle) && EndsSpelled(head, needle)
    ensures IsBoundary(head) && EndsIn(head, needle)
  {
    SearchedIsNeedle(needle);
    OccursIffSpelled(needle, head, |head| - |needle|);
    CharsOfOccurrence(needle, head, |head| - |needle|);
  }

  /** What is found at the end of `head` is masked in the end, whatever the value is and whatever stands
      behind it: `head` ends in any spelling of a sensitive word and its separator, or of "bearer ". */
  lemma {:induction false} SpelledKeyIsMasked(head: string, needle: string, rest: string)
    requires IsSearched(needle) && EndsSpelled(head, needle) && IsFresh(head)
    requires rest != "" && !EndsAValue(rest[0])
    requires RedactSensitiveText(head + rest).Some?
    ensures head + "***REDACTED***" <= RedactSensitiveText(head + rest).value
  {
    SpelledEndIsBoundary(head, needle);
    FreshForAll(head);
    var rest' := PassesKeepHead(AllPasses(), head, rest);
    var t := head + rest';
    SearchedIsMasked(head + rest, needle);
    OccurrenceInPrefix(needle, head, rest', |head| - |needle|);
    assert IsMaskedAt(t, |head|);
    assert t[|head|..] == rest';
    TerminatorsEndValues(rest'[0]);
    assert head + MARKER == t[..|head| + |MARKER|];
  }

  lemma {:induction false} SearchedIsMasked(s: string, needle: string)
    requires IsSearched(needle) && RedactSensitiveText(s).Some?
    ensures IsMasked(needle, RedactSensitiveText(s).value)
  {
    if needle == "bearer " {
      BearerIsMasked(s);
    } else {
      var word := WordOfKey(needle);
      WordIsMasked(s, word);
    }
  }

  lemma {:induction false} WordOfKey(needle: string) returns (word: string)
    requires IsSearched(needle) && needle != "bearer "
    ensures IsSensitiveWord(word) && IsKeyOf(needle, word)
  {
    word :| IsSensitiveWord(word) && IsKeyOf(needle, word);
  }

  lemma {:induction false} BearerIsMasked(s: string)
    requires RedactSensitiveText(s).Some?
    ensures IsMasked("bearer ", RedactSensitiveText(s).value)
  {
    NoKeyIsFollowedByASecret(s, 0);
  }

  lemma {:induction false} WordIsMasked(s: string, word: string)
    requires IsSensitiveWord(word) && RedactSensitiveText(s).Some?
    ensures IsMasked(word + "=", RedactSensitiveText(s).value)
    ensures IsMasked(word + ":", RedactSensitiveText(s).value)
  {
    SensitiveWordsAreKeys(word);
    var k :| 0 <= k < |KEYS| && KEYS[k] == word;
    NoKeyIsFollowedByASecret(s, k);
  }

  // ---------------------------------------------------------------------------------------------
  // The written text in full, when there is one secret.

  /** The secret behind a key: up to the first character that ends a value; behind "authorization" and its
      separator, "bearer " in any spelling belongs to it. */
  predicate IsSecretBehind(value: string, behind: string, isAuthorization: bool) {
    var from := if isAuthorization && SpelledAt("bearer ", value + behind, 0) then 7 else 0;
    && value != "" && from <= |value|
    && (forall k :: from <= k < |value| ==> !EndsAValue(value[k]))
    && (behind == "" || EndsAValue(behind[0]))
  }

  lemma {:induction false} SecretLength(value: string, behind: string, isAuthorization: bool)
    requires IsSecretBehind(value, behind, isAuthorization)
    ensures ValueLength(value + behind, isAuthorization) == |value|
  {
    var s := value + behind;
    var bearer := BEARER;
    assert bearer == "bearer " && HasNoCapitals(bearer);
    OccursIffSpelled(bearer, s, 0);
    assert BEARER <= Lower(s) <==> OccursAt(bearer, s, 0);
    var from := if isAuthorization && BEARER <= Lower(s) then 7 else 0;
    forall k | from <= k < |value|
      ensures !IsTerminator(s[k])
    {
      TerminatorsEndValues(value[k]);
    }
    if behind != "" {
      TerminatorsEndValues(behind[0]);
      assert s[|value|] == behind[0];
    }
    var plain := s[from..];
    assert forall k :: 0 <= k < |value| - from ==> plain[k] == s[from + k];
    PlainLengthAt(plain, |value| - from);
    assert s[0..] == s;
  }

  lemma {:induction false} MarkerSpellsNothing(s: string)
    requires |s| >= 7 && s[0] == '*'
    ensures !SpelledAt("bearer ", s, 0)
  {
    assert s[0..7][0] == '*' && "bearer "[0] == 'b';
    assert !SameLetter(s[0..7][0], "bearer "[0]);
  }

  lemma {:induction false} MarkerIsASecret(behind: string, isAuthorization: bool)
    requires behind == "" || EndsAValue(behind[0])
    ensures IsSecretBehind(MARKER, behind, isAuthorization)
  {
    assert (MARKER + behind)[0] == '*';
    var marker := MARKER;
    forall k | 0 <= k < |marker|
      ensures !EndsAValue(marker[k])
    {
    }
    MarkerSpellsNothing(marker + behind);
  }

  ghost predicate OccursNowhere(needle: string, s: string) {
    forall p :: 0 <= p ==> !OccursAt(needle, s, p)
  }

  lemma {:induction false} SecretIsMasked(pass: Pass, head: string, value: string, behind: string, i: nat)
    requires IsNeedle(pass.needle) && i + |pass.needle| == |head|
    requires Find(pass.needle, head + (value + behind)) == Some(i)
    requires IsSecretBehind(value, behind, pass.isAuthorization) && OccursNowhere(pass.needle, behind)
    ensures Redact(pass.needle, pass.isAuthorization, head + (value + behind)) == Some(head + (MARKER + behind))
  {
    var s, rest := head + (value + behind), value + behind;
    assert s[|head|..] == rest && s[..|head|] == head && rest[|value|..] == behind;
    SecretLength(value, behind, pass.isAuthorization);
    NothingToFind(pass, behind);
    ValueStep(pass.needle, pass.isAuthorization, s, i, rest, |value|);
    AppendTwice(head, MARKER, behind);
  }

  lemma {:induction false} NothingToFind(pass: Pass, s: string)
    requires pass.needle != "" && OccursNowhere(pass.needle, s)
    ensures Find(pass.needle, s).None? && Redact(pass.needle, pass.isAuthorization, s) == Some(s)
  {
    FindFromIsFirst(pass.needle, s, 0);
    NothingLeft(pass.needle, pass.isAuthorization, s);
  }

  /** What there is to find: the end of `head`, or nothing. */
  lemma {:induction false} OnlyHeadIsFound(pass: Pass, head: string, rest: string)
    requires IsNeedle(pass.needle) && IsBoundary(head) && OnlyAtItsEnd(head, pass.needle)
    requires OccursNowhere(pass.needle, rest)
    ensures if EndsIn(head, pass.needle) then Find(pass.needle, head + rest) == Some(|head| - |pass.needle|)
            else OccursNowhere(pass.needle, head + rest)
  {
    forall p | 0 <= p && OccursAt(pass.needle, head + rest, p)
      ensures EndsIn(head, pass.needle) && p + |pass.needle| == |head|
    {
      OccurrenceOnOneSide(pass.needle, head, rest, p);
    }
    FindFromIsFirst(pass.needle, head + rest, 0);
    if EndsIn(head, pass.needle) {
      OccurrenceInPrefix(pass.needle, head, rest, |head| - |pass.needle|);
    }
  }

  /** One pass on a text with nothing to find but the end of `head`. */
  lemma {:induction false} PassAlone(pass: Pass, head: string, value: string, behind: string)
    requires IsNeedle(pass.needle) && IsBoundary(head) && OnlyAtItsEnd(head, pass.needle)
    requires OccursNowhere(pass.needle, value + behind) && OccursNowhere(pass.needle, behind)
    requires EndsIn(head, pass.needle) ==> IsSecretBehind(value, behind, pass.isAuthorization)
    ensures Redact(pass.needle, pass.isAuthorization, head + (value + behind))
         == Some(head + (if EndsIn(head, pass.needle) then MARKER + behind else value + behind))
  {
    OnlyHeadIsFound(pass, head, value + behind);
    if EndsIn(head, pass.needle) {
      SecretIsMasked(pass, head, value, behind, |head| - |pass.needle|);
    } else {
      NothingToFind(pass, head + (value + behind));
    }
  }

  lemma {:induction false} MarkerIsClean(needle: string, head: string, behind: string)
    requires IsNeedle(needle) && OccursNowhere(needle, behind)
    ensures OccursNowhere(needle, MARKER + behind)
  {
    forall p | 0 <= p && OccursAt(needle, MARKER + behind, p)
      ensures false
    {
      var s := "=" + MARKER + behind;
      assert s[1..] == MARKER + behind;
      OccurrenceInSuffix(needle, s, 1, p);
      MarkerIsReplacement();
      OccurrenceAround(needle, "=", MARKER, behind, p + 1);
      assert s[1 + |MARKER|..] == behind;
      OccurrenceInSuffix(needle, s, 1 + |MARKER|, p - |MARKER|);
    }
  }

  /** Some pass has found the end of `head`. */
  predicate IsFoundBy(passes: seq<Pass>, head: string) {
    exists i :: 0 <= i < |passes| && EndsIn(head, passes[i].needle)
  }

  ghost predicate IsPlainFor(pass: Pass, head: string, value: string, behind: string) {
    && IsNeedle(pass.needle) && OnlyAtItsEnd(head, pass.needle)
    && OccursNowhere(pass.needle, value + behind) && OccursNowhere(pass.needle, behind)
    && (EndsIn(head, pass.needle) ==> IsSecretBehind(value, behind, pass.isAuthorization))
  }

  lemma {:induction false} MaskedIsPlain(pass: Pass, head: string, value: string, behind: string)
    requires IsPlainFor(pass, head, value, behind) && (behind == "" || EndsAValue(behind[0]))
    ensures IsPlainFor(pass, head, MARKER, behind)
  {
    MarkerIsClean(pass.needle, head, behind);
    MarkerIsASecret(behind, pass.isAuthorization);
  }

  lemma {:induction false} PassesAlone(passes: seq<Pass>, head: string, value: string, behind: string)
    requires IsBoundary(head) && (behind == "" || EndsAValue(behind[0]))
    requires forall i :: 0 <= i < |passes| ==> IsPlainFor(passes[i], head, value, behind)
    ensures forall i :: 0 <= i < |passes| ==> IsNeedle(passes[i].needle)
    ensures RunPasses(passes, head + (value + behind))
         == Some(head + (if IsFoundBy(passes, head) then MARKER + behind else value + behind))
    decreases |passes|
  {
    if passes != [] {
      assert IsPlainFor(passes[0], head, value, behind);
      PassAlone(passes[0], head, value, behind);
      assert forall i :: 0 < i < |passes| ==> passes[i] == passes[1..][i - 1];
      assert forall i :: 0 <= i < |passes[1..]| ==> passes[1..][i] == passes[i + 1];
      if EndsIn(head, passes[0].needle) {
        forall i | 0 <= i < |passes[1..]|
          ensures IsPlainFor(passes[1..][i], head, MARKER, behind)
        {
          MaskedIsPlain(passes[i + 1], head, value, behind);
        }
        PassesAlone(passes[1..], head, MARKER, behind);
      } else {
        PassesAlone(passes[1..], head, value, behind);
        assert IsFoundBy(passes, head) <==> IsFoundBy(passes[1..], head);
      }
    }
  }

  lemma {:induction false} RunPassesConcat(first: seq<Pass>, last: Pass, s: string)
    requires forall i :: 0 <= i < |first| ==> IsNeedle(first[i].needle)
    requires IsNeedle(last.needle) && RunPasses(first, s).Some?
    ensures RunPasses(first + [last], s) == Redact(last.needle, last.isAuthorization, RunPasses(first, s).value)
    decreases |first|
  {
    var passes := first + [last];
    assert IsNeedle(passes[0].needle);
    if first == [] {
      assert passes[1..] == [];
    } else {
      assert passes[1..] == first[1..] + [last];
      RunPassesConcat(first[1..], last, Redact(first[0].needle, first[0].isAuthorization, s).value);
    }
  }

  lemma {:induction false} WordIsFound(head: string, word: string, needle: string)
    requires IsSensitiveWord(word) && IsKeyOf(needle, word) && EndsIn(head, needle)
    ensures IsFoundBy(KeyPasses(KEYS), head)
  {
    SensitiveWordsAreKeys(word);
    KeysAreKeyWords();
    KeyPassesHaveNeedles(KEYS);
    var k :| 0 <= k < |KEYS| && KEYS[k] == word;
    var passes := KeyPasses(KEYS);
    if needle == word + "=" {
      var i :| 0 <= i < |passes| && passes[i].needle == KEYS[k] + "=";
      assert EndsIn(head, passes[i].needle);
    } else {
      var i :| 0 <= i < |passes| && passes[i].needle == KEYS[k] + ":";
      assert EndsIn(head, passes[i].needle);
    }
  }

  /** Nothing is spelled in `s` that the passes for keys look for. */
  ghost predicate HasNoKey(s: string) {
    forall needle, at :: IsSearched(needle) && needle != "bearer " ==> !SpelledAt(needle, s, at)
  }

  ghost predicate HasNoBearer(s: string) {
    forall at :: !SpelledAt("bearer ", s, at)
  }

  lemma {:induction false} NoKeyOccurs(needle: string, s: string)
    requires IsSearched(needle) && (if needle == "bearer " then HasNoBearer(s) else HasNoKey(s))
    ensures OccursNowhere(needle, s)
  {
    SearchedIsNeedle(needle);
    forall p | 0 <= p && OccursAt(needle, s, p)
      ensures false
    {
      OccursIffSpelled(needle, s, p);
    }
  }

  lemma {:induction false} SuffixOccursNowhere(needle: string, value: string, behind: string)
    requires OccursNowhere(needle, value + behind)
    ensures OccursNowhere(needle, behind)
  {
    forall p | 0 <= p && OccursAt(needle, behind, p)
      ensures false
    {
      assert (value + behind)[|value|..] == behind;
      OccurrenceInSuffix(needle, value + behind, |value|, p);
    }
  }

  /** The letters of the word stand before the last character of `head`, in some case. */
  predicate HasWordBeforeEnd(head: string, word: string) {
    |word| < |head| && forall k :: 0 <= k < |word| ==> LowerChar(head[|head| - 1 - |word| + k]) == word[k]
  }

  lemma {:induction false} LettersAtTheEnd(head: string, word: string, needle: string)
    requires IsKeyOf(needle, word) && EndsIn(head, needle)
    ensures HasWordBeforeEnd(head, word)
  {
    OccurrenceChars(needle, head, |head| - |needle|);
    forall k | 0 <= k < |word|
      ensures LowerChar(head[|head| - 1 - |word| + k]) == word[k]
    {
      assert LowerChar(head[|head| - |needle| + k]) == needle[k] == word[k];
    }
  }

  lemma {:induction false} LastLetters(word: string, other: string, head: string)
    requires IsSensitiveWord(word) && IsSensitiveWord(other)
    requires HasWordBeforeEnd(head, word) && HasWordBeforeEnd(head, other)
    ensures other == "authorization" <==> word == "authorization"
  {
    var end := |head| - 1;
    assert word[|word| - 1] == other[|other| - 1] == LowerChar(head[end - 1]);
    assert word[|word| - 2] == other[|other| - 2] == LowerChar(head[end - 2]);
    assert word[|word| - 3] == other[|other| - 3] == LowerChar(head[end - 3]);
  }

  /** Of the words only "authorization" ends as it does, and its passes take "bearer " along. */
  lemma {:induction false} AuthorizationAtTheEnd(head: string, pass: Pass, other: string, word: string, needle: string)
    requires IsSensitiveWord(word) && IsKeyOf(needle, word) && EndsIn(head, needle)
    requires IsSensitiveWord(other) && IsKeyOf(pass.needle, other) && EndsIn(head, pass.needle)
    requires pass.isAuthorization == (other == "authorization")
    ensures pass.isAuthorization <==> word == "authorization"
  {
    LettersAtTheEnd(head, word, needle);
    LettersAtTheEnd(head, other, pass.needle);
    LastLetters(word, other, head);
  }

  lemma {:induction false} WordOf(pass: Pass) returns (word: string)
    requires IsRightPass(pass) && pass.needle != "bearer "
    ensures IsSensitiveWord(word) && IsKeyOf(pass.needle, word)
    ensures pass.isAuthorization == (word == "authorization")
  {
    word :| IsSensitiveWord(word) && IsPassOf(pass, word);
  }

  lemma {:induction false} KeyPassIsPlain(head: string, word: string, needle: string, value: string, behind: string,
      pass: Pass)
    requires IsSensitiveWord(word) && IsKeyOf(needle, word) && EndsSpelled(head, needle)
    requires IsFresh(head) && IsSecretBehind(value, behind, word == "authorization") && HasNoKey(value + behind)
    requires IsRightPass(pass) && pass.needle != "bearer "
    ensures IsPlainFor(pass, head, value, behind)
  {
    KeyIsSearched(word, needle);
    SpelledEndIsBoundary(head, needle);
    FreshForOne(head, pass.needle);
    NoKeyOccurs(pass.needle, value + behind);
    SuffixOccursNowhere(pass.needle, value, behind);
    if EndsIn(head, pass.needle) {
      var other := WordOf(pass);
      AuthorizationAtTheEnd(head, pass, other, word, needle);
    }
  }

  lemma {:induction false} KeyPassesAlone(head: string, word: string, needle: string, value: string, behind: string)
    requires IsSensitiveWord(word) && IsKeyOf(needle, word) && EndsSpelled(head, needle)
    requires IsFresh(head) && IsSecretBehind(value, behind, word == "authorization") && HasNoKey(value + behind)
    ensures forall i :: 0 <= i < |KeyPasses(KEYS)| ==> IsNeedle(KeyPasses(KEYS)[i].needle)
    ensures RunPasses(KeyPasses(KEYS), head + (value + behind)) == Some(head + (MARKER + behind))
  {
    var passes := KeyPasses(KEYS);
    KeyIsSearched(word, needle);
    SpelledEndIsBoundary(head, needle);
    PassesAreRight();
    forall i | 0 <= i < |passes|
      ensures IsPlainFor(passes[i], head, value, behind)
    {
      assert passes[i] == AllPasses()[i];
      KeyPassIsPlain(head, word, needle, value, behind, passes[i]);
    }
    PassesAlone(passes, head, value, behind);
    WordIsFound(head, word, needle);
  }

  lemma {:induction false} TextIsSanitized(s: string, t: string)
    requires forall i :: 0 <= i < |KeyPasses(KEYS)| ==> IsNeedle(KeyPasses(KEYS)[i].needle)
    requires RunPasses(KeyPasses(KEYS), s) == Some(t) && Redact(BEARER, false, t) == Some(t)
    ensures RedactSensitiveText(s) == Some(t)
  {
    KeysAreKeyWords();
    RunPassesConcat(KeyPasses(KEYS), Pass(BEARER, false), s);
  }

  /** The text that is written, in full, for one secret: behind any spelling of a sensitive word and its
      separator, the value up to the first character that ends one is replaced by the marker, and nothing
      else changes. Behind "authorization" the scheme "bearer " is part of the value. */
  lemma {:induction false} OneSecretIsReplaced(head: string, word: string, needle: string, value: string,
      behind: string)
    requires IsSensitiveWord(word) && IsKeyOf(needle, word) && EndsSpelled(head, needle)
    requires IsFresh(head) && IsSecretBehind(value, behind, word == "authorization")
    requires HasNoKey(value + behind) && HasNoBearer(behind)
    ensures RedactSensitiveText(head + value + behind) == Some(head + "***REDACTED***" + behind)
  {
    KeyIsSearched(word, needle);
    KeyPassesAlone(head, word, needle, value, behind);
    BearerFindsNothing(head, needle, behind);
    assert head + value + behind == head + (value + behind);
    assert head + "***REDACTED***" + behind == head + (MARKER + behind);
    TextIsSanitized(head + (value + behind), head + (MARKER + behind));
  }

  lemma {:induction false} KeyIsNoBearer(head: string, needle: string)
    requires IsSearched(needle) && needle != "bearer " && EndsIn(head, needle)
    ensures !EndsIn(head, "bearer ")
  {
    SearchedIsNeedle(needle);
    OccurrenceChars(needle, head, |head| - |needle|);
    assert LowerChar(head[|head| - |needle| + (|needle| - 1)]) == needle[|needle| - 1];
    assert needle[|needle| - 1] in "=:";
    if 7 <= |head| {
      OccurrenceChars("bearer ", head, |head| - 7);
      assert LowerChar(head[|head| - 7 + 6]) != "bearer "[6];
    }
  }

  lemma {:induction false} BearerFindsNothing(head: string, needle: string, behind: string)
    requires IsSearched(needle) && needle != "bearer " && EndsSpelled(head, needle)
    requires IsFresh(head) && HasNoBearer(behind) && (behind == "" || EndsAValue(behind[0]))
    ensures Redact(BEARER, false, head + (MARKER + behind)) == Some(head + (MARKER + behind))
  {
    assert IsSearched("bearer ");
    SearchedIsNeedle("bearer ");
    SpelledEndIsBoundary(head, needle);
    FreshForOne(head, "bearer ");
    NoKeyOccurs("bearer ", behind);
    MarkerIsClean("bearer ", head, behind);
    KeyIsNoBearer(head, needle);
    PassAlone(Pass(BEARER, false), head, MARKER, behind);
  }
}
