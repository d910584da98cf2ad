/** What the masking of log text guarantees. */
module RedactionTheorems {
  import opened Options
  import opened Redaction

  predicate IsKeyChar(c: char) {
    'a' <= c <= 'z' || c == '_'
  }

  predicate IsSeparator(c: char) {
    c == '=' || c == ':' || c == ' '
  }

  /** A lower-case key word followed by its separator: `token=`, `api_key:`, `bearer `. */
  predicate IsNeedle(needle: string) {
    && needle != "" && 2 <= |needle|
    && IsSeparator(needle[|needle| - 1])
    && forall i :: 0 <= i < |needle| - 1 ==> IsKeyChar(needle[i])
  }

  predicate IsMaskedAt(t: string, at: nat) {
    at >= |t| || MARKER <= t[at..] || IsTerminator(t[at])
  }

  /** Every occurrence of the key, in any letter case, is followed by the marker, by a terminator, or
      by the end of the text. */
  predicate IsMasked(needle: string, t: string) {
    forall p :: 0 <= p <= |t| && OccursAt(needle, t, p) ==> IsMaskedAt(t, p + |needle|)
  }

  lemma {:induction false} OccurrenceChars(needle: string, s: string, p: nat)
    ensures OccursAt(needle, s, p) <==>
              p + |needle| <= |s| && forall k :: 0 <= k < |needle| ==> LowerChar(s[p + k]) == needle[k]
  {
    if p + |needle| <= |s| {
      var part := Lower(s)[p..p + |needle|];
      assert forall k :: 0 <= k < |needle| ==> part[k] == LowerChar(s[p + k]);
    }
  }

  /** What a key can reach over: key characters up to its separator. */
  lemma {:induction false} CharsOfOccurrence(needle: string, t: string, p: nat)
    requires IsNeedle(needle) && OccursAt(needle, t, p)
    ensures p + |needle| <= |t|
    ensures forall q :: p <= q < p + |needle| - 1 ==> IsKeyChar(LowerChar(t[q]))
    ensures IsSeparator(LowerChar(t[p + |needle| - 1]))
  {
    OccurrenceChars(needle, t, p);
    forall q | p <= q < p + |needle| - 1
      ensures IsKeyChar(LowerChar(t[q]))
    {
      var k := q - p;
      assert t[p + k] == t[q] && IsKeyChar(needle[k]);
    }
    var k := |needle| - 1;
    assert t[p + k] == t[p + |needle| - 1] && IsSeparator(needle[k]);
  }

  /** No key begins in a replacement. */
  predicate IsReplacement(mid: string) {
    && 0 < |mid|
    && !IsKeyChar(LowerChar(mid[0])) && !IsKeyChar(LowerChar(mid[|mid| - 1]))
    && (|mid| == 1 || forall k :: 0 <= k < |mid| ==> !IsSeparator(LowerChar(mid[k])))
  }

  /** A key does not reach over the end of `head`, nor begin in what was put behind it. */
  lemma {:induction false} OccurrenceAround(needle: string, head: string, mid: string, rest: string, p: nat)
    requires IsNeedle(needle) && head != "" && IsSeparator(LowerChar(head[|head| - 1])) && IsReplacement(mid)
    requires OccursAt(needle, head + mid + rest, p)
    ensures p + |needle| <= |head| || |head| + |mid| <= p
  {
    var t := head + mid + rest;
    CharsOfOccurrence(needle, t, p);
    assert t[|head| - 1] == head[|head| - 1];
    assert t[|head| + |mid| - 1] == mid[|mid| - 1];
    assert forall q :: |head| <= q < |head| + |mid| ==> t[q] == mid[q - |head|];
  }

  lemma {:induction false} OccurrenceInSuffix(needle: string, s: string, k: nat, p: nat)
    requires k <= |s|
    ensures OccursAt(needle, s[k..], p) <==> OccursAt(needle, s, k + p)
  {
    if k + p + |needle| <= |s| {
      assert Lower(s[k..]) == Lower(s)[k..];
      assert Lower(s)[k..][p..p + |needle|] == Lower(s)[k + p..k + p + |needle|];
    }
  }

  lemma {:induction false} OccurrenceInPrefix(needle: string, s: string, more: string, p: nat)
    requires p + |needle| <= |s|
    ensures OccursAt(needle, s + more, p) <==> OccursAt(needle, s, p)
  {
    assert Lower(s + more)[p..p + |needle|] == Lower(s)[p..p + |needle|];
  }

  lemma {:induction false} SuffixIsMasked(needle: string, s: string, k: nat)
    requires k <= |s| && IsMasked(needle, s)
    ensures IsMasked(needle, s[k..])
  {
    forall p | 0 <= p <= |s[k..]| && OccursAt(needle, s[k..], p)
      ensures IsMaskedAt(s[k..], p + |needle|)
    {
      OccurrenceInSuffix(needle, s, k, p);
      var at := k + p + |needle|;
      assert IsMaskedAt(s, at);
      assert at <= |s| ==> s[k..][p + |needle|..] == s[at..];
    }
  }

  /** A masked rest behind a head that is masked up to its end. */
  lemma {:induction false} MaskedParts(needle: string, head: string, mid: string, rest: string)
    requires IsNeedle(needle) && head != "" && IsSeparator(LowerChar(head[|head| - 1]))
    requires IsReplacement(mid) && IsMaskedAt(mid + rest, 0)
    requires IsMasked(needle, rest)
    requires forall p :: 0 <= p && p + |needle| < |head| && OccursAt(needle, head, p) ==>
               IsMaskedAt(head + mid + rest, p + |needle|)
    ensures IsMasked(needle, head + mid + rest)
  {
    var t := head + mid + rest;
    forall p | 0 <= p <= |t| && OccursAt(needle, t, p)
      ensures IsMaskedAt(t, p + |needle|)
    {
      OccurrenceAround(needle, head, mid, rest, p);
      if p + |needle| <= |head| {
        assert t == head + (mid + rest);
        OccurrenceInPrefix(needle, head, mid + rest, p);
        if p + |needle| == |head| {
          assert t[|head|..] == mid + rest;
        }
      } else {
        var k := |head| + |mid|;
        assert t[k..] == rest;
        OccurrenceInSuffix(needle, t, k, p - k);
        assert IsMaskedAt(rest, p - k + |needle|);
        assert p - k + |needle| <= |rest| ==> rest[p - k + |needle|..] == t[p + |needle|..];
      }
    }
  }

  /** What was masked within `head` stays masked whatever is put behind it: no marker can contain the
      separator that ends `head`. */
  lemma {:induction false} MaskWithinHead(head: string, before: string, after: string, at: nat)
    requires at < |head| && IsSeparator(LowerChar(head[|head| - 1]))
    requires IsMaskedAt(head + before, at)
    ensures IsMaskedAt(head + after, at)
  {
    var s, t := head + before, head + after;
    assert s[at] == t[at];
    if MARKER <= s[at..] {
      MarkerEndsInHead(head, before, at);
      assert t[at..][..|MARKER|] == s[at..][..|MARKER|];
    }
  }

  lemma {:induction false} MarkerEndsInHead(head: string, behind: string, at: nat)
    requires at < |head| && IsSeparator(LowerChar(head[|head| - 1])) && MARKER <= (head + behind)[at..]
    ensures at + |MARKER| <= |head|
  {
    var marker := MARKER;
    assert forall k :: 0 <= k < |marker| ==> !IsSeparator(LowerChar(marker[k]));
    var s := head + behind;
    assert forall k :: 0 <= k < |marker| ==> s[at..][k] == marker[k];
    var k := |head| - 1 - at;
    assert s[at..][k] == head[|head| - 1];
  }

  /** What one step of a pass puts behind the key, and where it goes on. */
  function ReplacementFor(rest: string, n: nat): (mid: string)
    requires rest != ""
    ensures n > 0 || IsTerminator(rest[0]) ==>
        IsReplacement(mid) && (mid == MARKER || (|mid| == 1 && IsTerminator(mid[0])))
  {
    if n > 0 then MarkerIsReplacement(); MARKER else rest[..1]
  }

  lemma {:induction false} MarkerIsReplacement()
    ensures IsReplacement(MARKER)
  {
  }

  lemma {:induction false} OnePassStep(needle: string, isAuthorization: bool, s: string, i: nat, n: nat, next: nat)
    requires needle != "" && Find(needle, s) == Some(i) && i + |needle| < |s|
    requires n == ValueLength(s[i + |needle|..], isAuthorization)
    requires next == i + |needle| + if n > 0 then n else 1
    ensures var mid := ReplacementFor(s[i + |needle|..], n);
            var tail := Redact(needle, isAuthorization, s[next..]);
            || Redact(needle, isAuthorization, s) == Prepend(s[..i + |needle|] + mid, tail)
            || Redact(needle, isAuthorization, s) == None
  {
    var rest := s[i + |needle|..];
    assert rest[next - i - |needle|..] == s[next..];
    if n > 0 {
      ValueStep(needle, isAuthorization, s, i, rest, n);
    } else {
      EmptyValueStep(needle, isAuthorization, s, i, rest);
    }
  }

  lemma {:induction false} ValueStep(needle: string, isAuthorization: bool, s: string, i: nat, rest: string, n: nat)
    requires needle != "" && Find(needle, s) == Some(i) && i + |needle| < |s| && rest == s[i + |needle|..]
    requires 0 < n == ValueLength(rest, isAuthorization)
    ensures Redact(needle, isAuthorization, s)
        == Prepend(s[..i + |needle|] + MARKER, Redact(needle, isAuthorization, rest[n..]))
  {
  }

  lemma {:induction false} EmptyValueStep(needle: string, isAuthorization: bool, s: string, i: nat, rest: string)
    requires needle != "" && Find(needle, s) == Some(i) && i + |needle| < |s| && rest == s[i + |needle|..]
    requires ValueLength(rest, isAuthorization) == 0
    ensures || Redact(needle, isAuthorization, s) == None
            || Redact(needle, isAuthorization, s)
                == Prepend(s[..i + |needle|] + rest[..1], Redact(needle, isAuthorization, rest[1..]))
  {
  }

  /** One pass masks its own key and does not unmask any other. */
  lemma {:induction false} PassMasks(needle: string, isAuthorization: bool, s: string, other: string)
    requires IsNeedle(needle) && IsNeedle(other) && (other == needle || IsMasked(other, s))
    requires Redact(needle, isAuthorization, s).Some?
    ensures IsMasked(other, Redact(needle, isAuthorization, s).value)
    decreases |s|
  {
    var at := Find(needle, s);
    if at.Some? && at.value + |needle| < |s| {
      var i := at.value;
      var n := ValueLength(s[i + |needle|..], isAuthorization);
      var next := i + |needle| + if n > 0 then n else 1;
      OnePassStep(needle, isAuthorization, s, i, n, next);
      if other != needle {
        SuffixIsMasked(other, s, next);
      }
      PassMasks(needle, isAuthorization, s[next..], other);
      StepMasks(needle, isAuthorization, s, i, n, other, Redact(needle, isAuthorization, s[next..]).value);
    } else {
      NothingLeftToMask(needle, isAuthorization, s, other);
    }
  }

  lemma {:induction false} StepMasks(needle: string, isAuthorization: bool, s: string, i: nat, n: nat, other: string,
      tail: string)
    requires IsNeedle(needle) && IsNeedle(other) && (other == needle || IsMasked(other, s))
    requires Find(needle, s) == Some(i) && i + |needle| < |s|
    requires n == ValueLength(s[i + |needle|..], isAuthorization)
    requires IsMasked(other, tail)
    ensures IsMasked(other, s[..i + |needle|] + ReplacementFor(s[i + |needle|..], n) + tail)
  {
    var head := s[..i + |needle|];
    FindFromIsFirst(needle, s, 0);
    CharsOfOccurrence(needle, s, i);
    if n == 0 {
      EmptyValueIsTerminated(s[i + |needle|..], isAuthorization);
    }
    var mid := ReplacementFor(s[i + |needle|..], n);
    HeadStaysMasked(needle, s, i, other, mid + tail);
    assert head + (mid + tail) == head + mid + tail;
    MaskedParts(other, head, mid, tail);
  }

  lemma {:induction false} EmptyValueIsTerminated(s: string, isAuthorization: bool)
    requires s != "" && ValueLength(s, isAuthorization) == 0
    ensures IsTerminator(s[0])
  {
  }

  lemma {:induction false} NothingLeftToMask(needle: string, isAuthorization: bool, s: string, other: string)
    requires needle != "" && (other == needle || IsMasked(other, s))
    requires var at := Find(needle, s); at.Some? ==> at.value + |needle| >= |s|
    ensures Redact(needle, isAuthorization, s) == Some(s) && IsMasked(other, s)
  {
    FindFromIsFirst(needle, s, 0);
  }

  lemma {:induction false} HeadStaysMasked(needle: string, s: string, i: nat, other: string, behind: string)
    requires IsNeedle(needle) && IsNeedle(other) && (other == needle || IsMasked(other, s))
    requires OccursAt(needle, s, i) && forall j :: 0 <= j < i ==> !OccursAt(needle, s, j)
    ensures var head := s[..i + |needle|];
            forall p :: 0 <= p && p + |other| < |head| && OccursAt(other, head, p) ==>
                IsMaskedAt(head + behind, p + |other|)
  {
    var head, rest := s[..i + |needle|], s[i + |needle|..];
    assert head + rest == s;
    CharsOfOccurrence(needle, s, i);
    forall p | 0 <= p && p + |other| < |head| && OccursAt(other, head, p)
      ensures IsMaskedAt(head + behind, p + |other|)
    {
      OccurrenceInPrefix(other, head, rest, p);
      assert other != needle;
      MaskWithinHead(head, rest, behind, p + |other|);
    }
  }

  // ---------------------------------------------------------------------------------------------
  // Masking what is already masked changes nothing.

  lemma {:induction false} SameOccurrence(needle: string, s: string, t: string, h: nat, j: nat)
    requires h <= |s| && h <= |t| && s[..h] == t[..h] && j + |needle| <= h
    ensures OccursAt(needle, s, j) <==> OccursAt(needle, t, j)
  {
    OccurrenceInPrefix(needle, s[..h], s[h..], j);
    OccurrenceInPrefix(needle, t[..h], t[h..], j);
    assert s[..h] + s[h..] == s && t[..h] + t[h..] == t;
  }

  lemma {:induction false} FirstOccurrenceStays(needle: string, s: string, i: nat, more: string)
    requires Find(needle, s) == Some(i)
    ensures Find(needle, s[..i + |needle|] + more) == Some(i)
  {
    var h := i + |needle|;
    FindFromIsFirst(needle, s, 0);
    SameFirst(needle, s, s[..h] + more, i);
  }

  lemma {:induction false} SameFirst(needle: string, s: string, t: string, i: nat)
    requires i + |needle| <= |s| && i + |needle| <= |t| && s[..i + |needle|] == t[..i + |needle|]
    requires OccursAt(needle, s, i) && forall j :: 0 <= j < i ==> !OccursAt(needle, s, j)
    ensures Find(needle, t) == Some(i)
  {
    SameOccurrence(needle, s, t, i + |needle|, i);
    FindFromIsFirst(needle, t, 0);
    var at := Find(needle, t);
    if at.value < i {
      SameOccurrence(needle, s, t, i + |needle|, at.value);
    }
  }

  lemma {:induction false} PlainLengthAt(s: string, n: nat)
    requires n <= |s| && (n == |s| || IsTerminator(s[n]))
    requires forall k :: 0 <= k < n ==> !IsTerminator(s[k])
    ensures PlainLength(s) == n
  {
    if n > 0 {
      PlainLengthAt(s[1..], n - 1);
    }
  }

  lemma {:induction false} PlainLengthEnds(s: string)
    ensures var n := PlainLength(s); n == |s| || IsTerminator(s[n])
  {
    if s != "" && !IsTerminator(s[0]) {
      PlainLengthEnds(s[1..]);
    }
  }

  lemma {:induction false} PlainLengthIsPlain(s: string)
    ensures forall k :: 0 <= k < PlainLength(s) ==> !IsTerminator(s[k])
  {
    if s != "" && !IsTerminator(s[0]) {
      PlainLengthIsPlain(s[1..]);
      forall k | 0 <= k < PlainLength(s)
        ensures !IsTerminator(s[k])
      {
        assert k > 0 ==> s[k] == s[1..][k - 1];
      }
    }
  }

  lemma {:induction false} ValueEnds(s: string, isAuthorization: bool)
    ensures var n := ValueLength(s, isAuthorization); n == |s| || IsTerminator(s[n])
  {
    PlainLengthEnds(s);
    if isAuthorization && BEARER <= Lower(s) {
      PlainLengthEnds(s[|BEARER|..]);
    }
  }

  lemma {:induction false} MarkerIsAValue(rest: string, isAuthorization: bool)
    requires rest == "" || IsTerminator(rest[0])
    ensures ValueLength(MARKER + rest, isAuthorization) == |MARKER|
  {
    var marker := MARKER;
    assert forall k :: 0 <= k < |marker| ==> !IsTerminator(marker[k]);
    PlainLengthAt(marker + rest, |marker|);
    assert Lower(marker + rest)[0] == '*' && BEARER[0] == 'b';
  }

  lemma {:induction false} NoValueStays(c: char, rest: string, isAuthorization: bool)
    requires IsTerminator(c)
    ensures ValueLength([c] + rest, isAuthorization) == 0
  {
    assert Lower([c] + rest)[0] == LowerChar(c) && BEARER[0] == 'b';
  }

  lemma {:induction false} RedactKeepsFirst(needle: string, isAuthorization: bool, s: string)
    requires needle != "" && s != "" && Redact(needle, isAuthorization, s).Some?
    ensures var t := Redact(needle, isAuthorization, s).value; t != "" && t[0] == s[0]
  {
    var at := Find(needle, s);
    if at.Some? && at.value + |needle| < |s| {
      var i := at.value;
      var n := ValueLength(s[i + |needle|..], isAuthorization);
      OnePassStep(needle, isAuthorization, s, i, n, i + |needle| + if n > 0 then n else 1);
    } else {
      NothingLeft(needle, isAuthorization, s);
    }
  }

  lemma {:induction false} NothingLeft(needle: string, isAuthorization: bool, s: string)
    requires needle != ""
    requires var at := Find(needle, s); at.Some? ==> at.value + |needle| >= |s|
    ensures Redact(needle, isAuthorization, s) == Some(s)
  {
  }

  /** Rerunning a pass on its own result, for any needle, gives that result again. */
  lemma {:induction false} RedactIsIdempotent(needle: string, isAuthorization: bool, s: string)
    requires needle != "" && Redact(needle, isAuthorization, s).Some?
    ensures var t := Redact(needle, isAuthorization, s).value; Redact(needle, isAuthorization, t) == Some(t)
    decreases |s|
  {
    var at := Find(needle, s);
    if at.Some? && at.value + |needle| < |s| {
      var i := at.value;
      var n := ValueLength(s[i + |needle|..], isAuthorization);
      var next := i + |needle| + if n > 0 then n else 1;
      OnePassStep(needle, isAuthorization, s, i, n, next);
      RedactIsIdempotent(needle, isAuthorization, s[next..]);
      StepIsIdempotent(needle, isAuthorization, s, i, n, next, Redact(needle, isAuthorization, s[next..]).value);
    } else {
      NothingLeft(needle, isAuthorization, s);
    }
  }

  lemma {:induction false} StepIsIdempotent(needle: string, isAuthorization: bool, s: string, i: nat, n: nat,
      next: nat, tail: string)
    requires needle != "" && Find(needle, s) == Some(i) && i + |needle| < |s|
    requires n == ValueLength(s[i + |needle|..], isAuthorization)
    requires next == i + |needle| + if n > 0 then n else 1
    requires n > 0 || StepsOntoCharacter(s[i + |needle|])
    requires Redact(needle, isAuthorization, s[next..]) == Some(tail)
        && Redact(needle, isAuthorization, tail) == Some(tail)
    ensures var t := s[..i + |needle|] + ReplacementFor(s[i + |needle|..], n) + tail;
            Redact(needle, isAuthorization, t) == Some(t)
  {
    var rest := s[i + |needle|..];
    assert rest[next - i - |needle|..] == s[next..];
    ReplacementIsReadAgain(needle, isAuthorization, rest, n, tail);
    StepBack(needle, isAuthorization, s, i, ReplacementFor(rest, n), tail);
  }

  /** A text that starts like `s` up to the first occurrence and goes on with a replacement. */
  lemma {:induction false} StepBack(needle: string, isAuthorization: bool, s: string, i: nat, mid: string, tail: string)
    requires needle != "" && mid != "" && Find(needle, s) == Some(i)
    requires var n := ValueLength(mid + tail, isAuthorization);
             || (mid == MARKER && n == |mid|)
             || (|mid| == 1 && n == 0 && StepsOntoCharacter(mid[0]))
    requires Redact(needle, isAuthorization, tail) == Some(tail)
    ensures var t := s[..i + |needle|] + mid + tail; Redact(needle, isAuthorization, t) == Some(t)
  {
    var head := s[..i + |needle|];
    ThreeParts(head, mid, tail);
    FirstOccurrenceStays(needle, s, i, mid + tail);
    ReadAgain(needle, isAuthorization, head + (mid + tail), head, mid, tail);
  }

  lemma {:induction false} ThreeParts(a: string, b: string, c: string)
    ensures a + (b + c) == a + b + c
  {
  }

  /** What was put in place of a value is a value again, and no value stays no value. */
  lemma {:induction false} ReplacementIsReadAgain(needle: string, isAuthorization: bool, rest: string, n: nat,
      tail: string)
    requires needle != "" && rest != "" && n == ValueLength(rest, isAuthorization)
    requires Redact(needle, isAuthorization, rest[if n > 0 then n else 1..]) == Some(tail)
    ensures ValueLength(ReplacementFor(rest, n) + tail, isAuthorization) == if n > 0 then |MARKER| else 0
  {
    if n > 0 {
      ValueEnds(rest, isAuthorization);
      if rest[n..] != "" {
        RedactKeepsFirst(needle, isAuthorization, rest[n..]);
      }
      MarkerIsAValue(tail, isAuthorization);
    } else {
      EmptyValueIsTerminated(rest, isAuthorization);
      NoValueStays(rest[0], tail, isAuthorization);
    }
  }

  lemma {:induction false} ReadAgain(needle: string, isAuthorization: bool, t: string, head: string, mid: string,
      tail: string)
    requires needle != "" && t == head + (mid + tail) && mid != ""
    requires |needle| <= |head| && Find(needle, t) == Some(|head| - |needle|)
    requires var n := ValueLength(mid + tail, isAuthorization);
             || (mid == MARKER && n == |mid|)
             || (|mid| == 1 && n == 0 && StepsOntoCharacter(mid[0]))
    requires Redact(needle, isAuthorization, tail) == Some(tail)
    ensures Redact(needle, isAuthorization, t) == Some(t)
  {
    var n := ValueLength(mid + tail, isAuthorization);
    assert t[..|head|] == head && t[|head|..] == mid + tail;
    assert (mid + tail)[|mid|..] == tail && (mid + tail)[..|mid|] == mid;
    assert t == head + mid + tail;
  }
}
