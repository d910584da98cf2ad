/** When a pass panics: the code goes on one byte after a key without a value, which is inside a
    character when that key is followed by a terminator of more than one byte. */
module RedactionPanics {
  import opened Options
  import opened Text
  import opened Redaction
  import opened RedactionTheorems

  /** "token=" followed by a no-break space. */
  lemma {:induction false} NoBreakSpacePanics()
    ensures Redact("token=", false, "token=\U{A0}x") == None
  {
    var needle, s := "token=", "token=\U{A0}x";
    assert Lower(s)[0..6] == needle;
    assert OccursAt(needle, s, 0);
    assert s[0 + |needle|..] == "\U{A0}x";
    EmptyValuePanics(needle, false, s, 0, "\U{A0}x");
  }

  lemma {:induction false} EmptyValuePanics(needle: string, isAuthorization: bool, s: string, i: nat, rest: string)
    requires needle != "" && Find(needle, s) == Some(i) && i + |needle| < |s| && rest == s[i + |needle|..]
    requires ValueLength(rest, isAuthorization) == 0 && !StepsOntoCharacter(rest[0])
    ensures Redact(needle, isAuthorization, s) == None
  {
  }

  lemma {:induction false} EmptyValueGoesOn(needle: string, isAuthorization: bool, s: string, i: nat, rest: string)
    requires needle != "" && Find(needle, s) == Some(i) && i + |needle| < |s| && rest == s[i + |needle|..]
    requires ValueLength(rest, isAuthorization) == 0 && StepsOntoCharacter(rest[0])
    ensures Redact(needle, isAuthorization, s)
        == Prepend(s[..i + |needle|] + rest[..1], Redact(needle, isAuthorization, rest[1..]))
  {
  }

  // ---------------------------------------------------------------------------------------------
  // A condition on the text alone, which every pass keeps.

  /** All the whitespace of the text is ASCII. */
  predicate HasOneByteSpaces(s: string) {
    forall i :: 0 <= i < |s| && IsWhitespace(s[i]) ==> StepsOntoCharacter(s[i])
  }

  lemma {:induction false} OtherTerminatorsAreOneByte(c: char)
    requires IsTerminator(c) && (IsWhitespace(c) ==> StepsOntoCharacter(c))
    ensures StepsOntoCharacter(c)
  {
  }

  lemma {:induction false} OneByteSpacesOfParts(a: string, b: string)
    ensures HasOneByteSpaces(a + b) <==> HasOneByteSpaces(a) && HasOneByteSpaces(b)
  {
    if HasOneByteSpaces(a + b) {
      assert forall i :: 0 <= i < |a| ==> (a + b)[i] == a[i];
      assert forall i :: 0 <= i < |b| ==> b[i] == (a + b)[|a| + i];
    }
  }

  lemma {:induction false} MarkerHasOneByteSpaces()
    ensures HasOneByteSpaces(MARKER)
  {
  }

  predicate IsFineResult(result: Option<string>) {
    result.Some? && HasOneByteSpaces(result.value)
  }

  lemma {:induction false} PassKeepsOneByteSpaces(needle: string, isAuthorization: bool, s: string)
    requires needle != "" && HasOneByteSpaces(s)
    ensures IsFineResult(Redact(needle, isAuthorization, s))
    decreases |s|
  {
    var at := Find(needle, s);
    if at.Some? && at.value + |needle| < |s| {
      var i := at.value;
      var head, rest := s[..i + |needle|], s[i + |needle|..];
      var n := ValueLength(rest, isAuthorization);
      assert s == head + rest;
      OneByteSpacesOfParts(head, rest);
      var k := if n > 0 then n else 1;
      assert rest == rest[..k] + rest[k..];
      OneByteSpacesOfParts(rest[..k], rest[k..]);
      PassKeepsOneByteSpaces(needle, isAuthorization, rest[k..]);
      StepKeepsOneByteSpaces(needle, isAuthorization, s, i, head, rest, n);
    } else {
      NothingLeft(needle, isAuthorization, s);
    }
  }

  lemma {:induction false} StepKeepsOneByteSpaces(needle: string, isAuthorization: bool, s: string, i: nat,
      head: string, rest: string, n: nat)
    requires needle != "" && Find(needle, s) == Some(i) && i + |needle| < |s|
    requires head == s[..i + |needle|] && rest == s[i + |needle|..] && n == ValueLength(rest, isAuthorization)
    requires HasOneByteSpaces(head) && HasOneByteSpaces(rest)
    requires IsFineResult(Redact(needle, isAuthorization, rest[if n > 0 then n else 1..]))
    ensures IsFineResult(Redact(needle, isAuthorization, s))
  {
    if n > 0 {
      ValueStep(needle, isAuthorization, s, i, rest, n);
      MarkerHasOneByteSpaces();
      ThreePartsHaveOneByteSpaces(head, MARKER, Redact(needle, isAuthorization, rest[n..]).value);
    } else {
      EmptyValueIsTerminated(rest, isAuthorization);
      OtherTerminatorsAreOneByte(rest[0]);
      EmptyValueGoesOn(needle, isAuthorization, s, i, rest);
      ThreePartsHaveOneByteSpaces(head, rest[..1], Redact(needle, isAuthorization, rest[1..]).value);
    }
  }

  lemma {:induction false} ThreePartsHaveOneByteSpaces(a: string, b: string, c: string)
    requires HasOneByteSpaces(a) && HasOneByteSpaces(b) && HasOneByteSpaces(c)
    ensures HasOneByteSpaces(a + b + c)
  {
    OneByteSpacesOfParts(a, b);
    OneByteSpacesOfParts(a + b, c);
  }

  // ---------------------------------------------------------------------------------------------
  // The exact condition for a key: an occurrence that is not inside an earlier value.

  /** A key needle, whose separator does not end a value: all of them but "bearer ". */
  predicate IsKeyNeedle(needle: string) {
    IsNeedle(needle) && !IsTerminator(needle[|needle| - 1])
  }

  predicate HasTerminator(s: string, from: nat, to: nat) {
    exists k: nat :: from <= k < to && k < |s| && IsTerminator(s[k])
  }

  predicate IsFollowedByWideSpace(needle: string, s: string, p: nat) {
    && OccursAt(needle, s, p) && p + |needle| < |s|
    && IsTerminator(s[p + |needle|]) && !StepsOntoCharacter(s[p + |needle|])
  }

  /** Between any earlier occurrence of the key and the end of this one a value has ended. */
  predicate IsReached(needle: string, s: string, p: nat) {
    forall q: nat :: q < p && OccursAt(needle, s, q) ==> HasTerminator(s, q + |needle|, p + |needle|)
  }

  predicate PanicsAt(needle: string, s: string, p: nat) {
    IsFollowedByWideSpace(needle, s, p) && IsReached(needle, s, p)
  }

  lemma {:induction false} OccurrencesAreApart(needle: string, s: string, p: nat, q: nat)
    requires IsNeedle(needle) && OccursAt(needle, s, p) && OccursAt(needle, s, q) && p < q
    ensures p + |needle| <= q
  {
    CharsOfOccurrence(needle, s, p);
    CharsOfOccurrence(needle, s, q);
  }

  lemma {:induction false} NoTerminatorInKey(needle: string, s: string, p: nat)
    requires IsKeyNeedle(needle) && OccursAt(needle, s, p)
    ensures p + |needle| <= |s| && forall k :: p <= k < p + |needle| ==> !IsTerminator(s[k])
  {
    OccurrenceChars(needle, s, p);
    forall k | p <= k < p + |needle|
      ensures !IsTerminator(s[k])
    {
      assert LowerChar(s[p + (k - p)]) == needle[k - p];
      LowerKeepsTerminators(s[k]);
    }
  }

  lemma {:induction false} LowerKeepsTerminators(c: char)
    ensures IsTerminator(c) ==> LowerChar(c) == c && !IsKeyChar(c)
  {
  }

  /** Looking at the text from `next` on changes nothing if every occurrence before it is out of the way. */
  lemma {:induction false} PanicsAtShifted(needle: string, s: string, next: nat, p: nat)
    requires next <= |s|
    requires forall q: nat :: q < next && OccursAt(needle, s, q) ==> HasTerminator(s, q + |needle|, next + p + |needle|)
    ensures PanicsAt(needle, s[next..], p) <==> PanicsAt(needle, s, next + p)
  {
    OccurrenceInSuffix(needle, s, next, p);
    if next + p + |needle| < |s| {
      assert s[next..][p + |needle|] == s[next + p + |needle|];
    }
    assert IsFollowedByWideSpace(needle, s[next..], p) <==> IsFollowedByWideSpace(needle, s, next + p);
    IsReachedShifted(needle, s, next, p);
  }

  lemma {:induction false} HasTerminatorShifted(s: string, next: nat, from: nat, to: nat)
    requires next <= |s|
    ensures HasTerminator(s[next..], from, to) <==> HasTerminator(s, next + from, next + to)
  {
    if HasTerminator(s[next..], from, to) {
      var k: nat :| from <= k < to && k < |s[next..]| && IsTerminator(s[next..][k]);
      assert IsTerminator(s[next + k]);
    }
    if HasTerminator(s, next + from, next + to) {
      var k: nat :| next + from <= k < next + to && k < |s| && IsTerminator(s[k]);
      assert IsTerminator(s[next..][k - next]);
    }
  }

  lemma {:induction false} IsReachedShifted(needle: string, s: string, next: nat, p: nat)
    requires next <= |s|
    requires forall q: nat :: q < next && OccursAt(needle, s, q) ==> HasTerminator(s, q + |needle|, next + p + |needle|)
    ensures IsReached(needle, s[next..], p) <==> IsReached(needle, s, next + p)
  {
    forall q: nat
      ensures OccursAt(needle, s[next..], q) <==> OccursAt(needle, s, next + q)
      ensures HasTerminator(s[next..], q + |needle|, p + |needle|)
          <==> HasTerminator(s, next + q + |needle|, next + p + |needle|)
    {
      OccurrenceInSuffix(needle, s, next, q);
      HasTerminatorShifted(s, next, q + |needle|, p + |needle|);
    }
    if IsReached(needle, s[next..], p) {
      forall q: nat | q < next + p && OccursAt(needle, s, q)
        ensures HasTerminator(s, q + |needle|, next + p + |needle|)
      {
        if q >= next {
          assert OccursAt(needle, s[next..], q - next);
        }
      }
    }
    if IsReached(needle, s, next + p) {
      forall q: nat | q < p && OccursAt(needle, s[next..], q)
        ensures HasTerminator(s[next..], q + |needle|, p + |needle|)
      {
        assert OccursAt(needle, s, next + q);
      }
    }
  }

  predicate PanicsSomewhere(needle: string, s: string) {
    exists p: nat :: p <= |s| && PanicsAt(needle, s, p)
  }

  /** Where a pass goes on: every occurrence before is out of the way of all that follows, and none of
      them panics. */
  lemma {:induction false} PanicsSomewhereShifted(needle: string, s: string, next: nat)
    requires next <= |s|
    requires forall q: nat :: q < next && OccursAt(needle, s, q) ==>
               forall p: nat :: next <= p && OccursAt(needle, s, p) ==> HasTerminator(s, q + |needle|, p + |needle|)
    requires forall p: nat :: p < next ==> !PanicsAt(needle, s, p)
    ensures PanicsSomewhere(needle, s[next..]) <==> PanicsSomewhere(needle, s)
  {
    forall p: nat | next + p <= |s|
      ensures PanicsAt(needle, s[next..], p) <==> PanicsAt(needle, s, next + p)
    {
      OccurrenceInSuffix(needle, s, next, p);
      if OccursAt(needle, s, next + p) {
        PanicsAtShifted(needle, s, next, p);
      }
    }
    if PanicsSomewhere(needle, s[next..]) {
      var p: nat :| p <= |s[next..]| && PanicsAt(needle, s[next..], p);
      assert PanicsAt(needle, s, next + p);
    }
    if PanicsSomewhere(needle, s) {
      var p: nat :| p <= |s| && PanicsAt(needle, s, p);
      assert PanicsAt(needle, s[next..], p - next);
    }
  }

  /** After a value of length `n` behind the first occurrence, or one character when there is none. */
  lemma {:induction false} StepIsOutOfTheWay(needle: string, s: string, i: nat, n: nat, next: nat)
    requires IsKeyNeedle(needle) && OccursAt(needle, s, i) && forall j :: 0 <= j < i ==> !OccursAt(needle, s, j)
    requires i + |needle| < |s| && n == PlainLength(s[i + |needle|..])
    requires next == i + |needle| + if n > 0 then n else 1
    ensures forall q: nat, p: nat :: q < next <= p && OccursAt(needle, s, q) && OccursAt(needle, s, p) ==>
              HasTerminator(s, q + |needle|, p + |needle|)
  {
    PlainLengthEnds(s[i + |needle|..]);
    var end := i + |needle| + n;
    assert end == |s| || IsTerminator(s[end]);
    forall q: nat, p: nat | q < next <= p && OccursAt(needle, s, q) && OccursAt(needle, s, p)
      ensures HasTerminator(s, q + |needle|, p + |needle|)
    {
      NoTerminatorInKey(needle, s, q);
      NoTerminatorInKey(needle, s, p);
      if i < q {
        OccurrencesAreApart(needle, s, i, q);
      }
      assert q + |needle| <= end < p + |needle| && end < |s|;
    }
  }

  /** Nothing panics in a value, nor at the first occurrence when a value or a one-byte terminator follows it. */
  lemma {:induction false} NoPanicBefore(needle: string, s: string, i: nat, n: nat, next: nat)
    requires IsKeyNeedle(needle) && OccursAt(needle, s, i) && forall j :: 0 <= j < i ==> !OccursAt(needle, s, j)
    requires i + |needle| < |s| && n == PlainLength(s[i + |needle|..])
    requires next == i + |needle| + if n > 0 then n else 1
    requires n > 0 || StepsOntoCharacter(s[i + |needle|])
    ensures forall p: nat :: p < next ==> !PanicsAt(needle, s, p)
  {
    PlainLengthIsPlain(s[i + |needle|..]);
    forall p: nat | p < next && OccursAt(needle, s, p)
      ensures !PanicsAt(needle, s, p)
    {
      if i < p {
        OccurrencesAreApart(needle, s, i, p);
        ValueSwallows(needle, s, i, n, p);
      } else if n > 0 {
        assert s[i + |needle|..][0] == s[i + |needle|];
      }
    }
  }

  lemma {:induction false} ValueSwallows(needle: string, s: string, i: nat, n: nat, p: nat)
    requires IsKeyNeedle(needle) && OccursAt(needle, s, i) && OccursAt(needle, s, p)
    requires i + |needle| < |s| && n == PlainLength(s[i + |needle|..])
    requires i + |needle| <= p < i + |needle| + if n > 0 then n else 1
    ensures !IsReached(needle, s, p)
  {
    var rest := s[i + |needle|..];
    PlainLengthIsPlain(rest);
    PlainLengthEnds(rest);
    NoTerminatorInKey(needle, s, p);
    assert rest[0] == s[i + |needle|];
    assert n > 0;
    forall k: nat | i + |needle| <= k < p + |needle| && k < |s|
      ensures !IsTerminator(s[k])
    {
      assert k < i + |needle| + n ==> s[k] == rest[k - i - |needle|];
    }
    assert !HasTerminator(s, i + |needle|, p + |needle|);
  }

  /** A pass panics if and only if some occurrence of its key is followed by a terminator of more than
      one byte, and is not inside the value of an earlier occurrence: that is, between any earlier
      occurrence and its own end there is a terminator. */
  lemma {:induction false} PassPanicsIff(needle: string, s: string)
    requires IsKeyNeedle(needle)
    ensures Redact(needle, false, s) == None <==> PanicsSomewhere(needle, s)
    decreases |s|
  {
    FindFromIsFirst(needle, s, 0);
    var at := Find(needle, s);
    if at.Some? && at.value + |needle| < |s| {
      var i := at.value;
      var rest := s[i + |needle|..];
      var n := PlainLength(rest);
      if n == 0 && !StepsOntoCharacter(rest[0]) {
        EmptyValuePanics(needle, false, s, i, rest);
        assert PanicsAt(needle, s, i);
      } else {
        var next := i + |needle| + if n > 0 then n else 1;
        StepIsOutOfTheWay(needle, s, i, n, next);
        NoPanicBefore(needle, s, i, n, next);
        PanicsSomewhereShifted(needle, s, next);
        PassPanicsIff(needle, s[next..]);
        assert rest[next - i - |needle|..] == s[next..];
        if n > 0 {
          ValueStep(needle, false, s, i, rest, n);
        } else {
          EmptyValueGoesOn(needle, false, s, i, rest);
        }
      }
    } else {
      NothingLeft(needle, false, s);
      LastOccurrenceDoesNotPanic(needle, s);
    }
  }

  lemma {:induction false} LastOccurrenceDoesNotPanic(needle: string, s: string)
    requires IsKeyNeedle(needle)
    requires var at := Find(needle, s); at.Some? ==> at.value + |needle| >= |s|
    ensures !PanicsSomewhere(needle, s)
  {
    FindFromIsFirst(needle, s, 0);
    forall p: nat
      ensures !PanicsAt(needle, s, p)
    {
    }
  }
}
