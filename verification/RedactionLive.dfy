/** When a pass of any kind panics, those for authorization keys and for "bearer " included. */
module RedactionLive {
  import opened Options
  import opened Redaction
  import opened RedactionTheorems
  import opened RedactionPanics

  /** Where the text goes on behind an occurrence and its value, or the one character in its place. */
  function Behind(needle: string, isAuthorization: bool, s: string, p: nat): nat
    requires p + |needle| < |s|
  {
    var n := ValueLength(s[p + |needle|..], isAuthorization);
    p + |needle| + if n > 0 then n else 1
  }

  function OccursIn(needle: string, s: string): nat -> bool {
    (p: nat) => OccursAt(needle, s, p) && p + |needle| < |s|
  }

  function BehindIn(needle: string, isAuthorization: bool, s: string): nat -> nat {
    (p: nat) => if p + |needle| < |s| then Behind(needle, isAuthorization, s, p) else 0
  }

  /** A place that is not inside what belongs to an earlier such place. */
  predicate IsLiveIn(occurs: nat -> bool, behind: nat -> nat, p: nat)
    decreases p
  {
    occurs(p) && forall q: nat :: q < p && IsLiveIn(occurs, behind, q) ==> behind(q) <= p
  }

  /** An occurrence of the key that is not inside the value of an earlier such occurrence. */
  predicate IsLive(needle: string, isAuthorization: bool, s: string, p: nat) {
    IsLiveIn(OccursIn(needle, s), BehindIn(needle, isAuthorization, s), p)
  }

  predicate LivePanics(needle: string, isAuthorization: bool, s: string, p: nat) {
    && IsLive(needle, isAuthorization, s, p)
    && IsTerminator(s[p + |needle|]) && !StepsOntoCharacter(s[p + |needle|])
  }

  predicate SomeLivePanics(needle: string, isAuthorization: bool, s: string) {
    exists p: nat :: p <= |s| && LivePanics(needle, isAuthorization, s, p)
  }

  /** The first place is live, and up to what is behind it there is no other. */
  lemma {:induction false} FirstIsLive(occurs: nat -> bool, behind: nat -> nat, i: nat)
    requires occurs(i) && forall j :: 0 <= j < i ==> !occurs(j)
    ensures IsLiveIn(occurs, behind, i)
    ensures forall p: nat :: p < behind(i) && IsLiveIn(occurs, behind, p) ==> p == i
  {
  }

  /** Looking from behind the first place on, the same places are live. */
  lemma {:induction false} LiveInShifted(
      occurs: nat -> bool, behind: nat -> nat, occurs': nat -> bool, behind': nat -> nat, i: nat, next: nat, p: nat)
    requires occurs(i) && (forall j :: 0 <= j < i ==> !occurs(j)) && behind(i) == next
    requires forall q: nat :: occurs'(q) == occurs(next + q)
    requires forall q: nat :: occurs'(q) ==> behind(next + q) == next + behind'(q)
    ensures IsLiveIn(occurs', behind', p) <==> IsLiveIn(occurs, behind, next + p)
    decreases p
  {
    forall q: nat | q < p
      ensures IsLiveIn(occurs', behind', q) <==> IsLiveIn(occurs, behind, next + q)
    {
      LiveInShifted(occurs, behind, occurs', behind', i, next, q);
    }
    FirstIsLive(occurs, behind, i);
    if IsLiveIn(occurs', behind', p) {
      forall q: nat | q < next + p && IsLiveIn(occurs, behind, q)
        ensures behind(q) <= next + p
      {
        if q >= next {
          assert IsLiveIn(occurs', behind', q - next);
        }
      }
    }
    if IsLiveIn(occurs, behind, next + p) {
      forall q: nat | q < p && IsLiveIn(occurs', behind', q)
        ensures behind'(q) <= p
      {
        assert IsLiveIn(occurs, behind, next + q);
      }
    }
  }

  /** The first occurrence in a text that goes on behind it. */
  predicate IsFirst(needle: string, s: string, i: nat) {
    OccursAt(needle, s, i) && i + |needle| < |s| && forall j :: 0 <= j < i ==> !OccursAt(needle, s, j)
  }

  lemma {:induction false} BehindShifted(needle: string, isAuthorization: bool, s: string, next: nat, p: nat)
    requires next + p + |needle| < |s|
    ensures next + Behind(needle, isAuthorization, s[next..], p) == Behind(needle, isAuthorization, s, next + p)
  {
    assert s[next..][p + |needle|..] == s[next + p + |needle|..];
  }

  lemma {:induction false} LiveShifted(needle: string, isAuthorization: bool, s: string, i: nat, next: nat, p: nat)
    requires IsFirst(needle, s, i) && next == Behind(needle, isAuthorization, s, i) <= |s|
    ensures IsLive(needle, isAuthorization, s[next..], p) <==> IsLive(needle, isAuthorization, s, next + p)
  {
    PlacesShifted(needle, s, next);
    forall q: nat | OccursIn(needle, s[next..])(q)
      ensures BehindIn(needle, isAuthorization, s)(next + q) == next + BehindIn(needle, isAuthorization, s[next..])(q)
    {
      PlaceBehindShifted(needle, isAuthorization, s, next, q);
    }
    FirstIsFirstPlace(needle, isAuthorization, s, i);
    LiveInShifted(OccursIn(needle, s), BehindIn(needle, isAuthorization, s),
                  OccursIn(needle, s[next..]), BehindIn(needle, isAuthorization, s[next..]), i, next, p);
  }

  lemma {:induction false} PlacesShifted(needle: string, s: string, next: nat)
    requires next <= |s|
    ensures forall q: nat :: OccursIn(needle, s[next..])(q) == OccursIn(needle, s)(next + q)
  {
    forall q: nat
      ensures OccursIn(needle, s[next..])(q) == OccursIn(needle, s)(next + q)
    {
      OccurrenceInSuffix(needle, s, next, q);
    }
  }

  lemma {:induction false} PlaceBehindShifted(needle: string, isAuthorization: bool, s: string, next: nat, q: nat)
    requires next <= |s| && OccursIn(needle, s[next..])(q)
    ensures BehindIn(needle, isAuthorization, s)(next + q) == next + BehindIn(needle, isAuthorization, s[next..])(q)
  {
    BehindShifted(needle, isAuthorization, s, next, q);
  }

  lemma {:induction false} FirstIsFirstPlace(needle: string, isAuthorization: bool, s: string, i: nat)
    requires IsFirst(needle, s, i)
    ensures OccursIn(needle, s)(i) && forall j: nat :: j < i ==> !OccursIn(needle, s)(j)
    ensures BehindIn(needle, isAuthorization, s)(i) == Behind(needle, isAuthorization, s, i)
  {
  }

  lemma {:induction false} FirstOccurrenceIsLive(needle: string, isAuthorization: bool, s: string, i: nat)
    requires IsFirst(needle, s, i)
    ensures IsLive(needle, isAuthorization, s, i)
    ensures forall p: nat :: p < Behind(needle, isAuthorization, s, i) && IsLive(needle, isAuthorization, s, p) ==>
        p == i
  {
    FirstIsFirstPlace(needle, isAuthorization, s, i);
    FirstIsLive(OccursIn(needle, s), BehindIn(needle, isAuthorization, s), i);
  }

  lemma {:induction false} LivePanicsAtShifted(needle: string, isAuthorization: bool, s: string, i: nat, next: nat,
      p: nat)
    requires IsFirst(needle, s, i) && next == Behind(needle, isAuthorization, s, i) <= |s|
    ensures LivePanics(needle, isAuthorization, s[next..], p) <==> LivePanics(needle, isAuthorization, s, next + p)
  {
    LiveShifted(needle, isAuthorization, s, i, next, p);
    if next + p + |needle| < |s| {
      assert s[next..][p + |needle|] == s[next + p + |needle|];
    }
  }

  lemma {:induction false} LivePanicIsBehind(needle: string, isAuthorization: bool, s: string, i: nat, next: nat,
      p: nat)
    requires IsFirst(needle, s, i) && next == Behind(needle, isAuthorization, s, i) <= |s|
    requires !LivePanics(needle, isAuthorization, s, i) && LivePanics(needle, isAuthorization, s, p)
    ensures next <= p && LivePanics(needle, isAuthorization, s[next..], p - next)
  {
    assert next <= p by {
      assert IsLive(needle, isAuthorization, s, p);
      FirstOccurrenceIsLive(needle, isAuthorization, s, i);
    }
    LivePanicsAtShifted(needle, isAuthorization, s, i, next, p - next);
  }

  lemma {:induction false} LivePanicsShifted(needle: string, isAuthorization: bool, s: string, i: nat, next: nat)
    requires IsFirst(needle, s, i) && next == Behind(needle, isAuthorization, s, i) <= |s|
    requires !LivePanics(needle, isAuthorization, s, i)
    ensures SomeLivePanics(needle, isAuthorization, s) <==> SomeLivePanics(needle, isAuthorization, s[next..])
  {
    if SomeLivePanics(needle, isAuthorization, s) {
      var p: nat :| p <= |s| && LivePanics(needle, isAuthorization, s, p);
      LivePanicIsBehind(needle, isAuthorization, s, i, next, p);
    }
    if SomeLivePanics(needle, isAuthorization, s[next..]) {
      var p: nat :| p <= |s[next..]| && LivePanics(needle, isAuthorization, s[next..], p);
      LivePanicsAtShifted(needle, isAuthorization, s, i, next, p);
    }
  }

  /** A pass of any kind panics if and only if some live occurrence of its key is followed by a terminator
      of more than one byte. */
  lemma {:induction false} AnyPassPanicsIff(needle: string, isAuthorization: bool, s: string)
    requires needle != ""
    ensures Redact(needle, isAuthorization, s) == None <==> SomeLivePanics(needle, isAuthorization, s)
    decreases |s|, 1
  {
    FindFromIsFirst(needle, s, 0);
    var at := Find(needle, s);
    if at.Some? && at.value + |needle| < |s| {
      PanicsFromFirst(needle, isAuthorization, s, at.value);
    } else {
      NothingLeft(needle, isAuthorization, s);
      assert forall p: nat :: !IsLive(needle, isAuthorization, s, p);
    }
  }

  lemma {:induction false} PanicsFromFirst(needle: string, isAuthorization: bool, s: string, i: nat)
    requires needle != "" && Find(needle, s) == Some(i) && IsFirst(needle, s, i)
    ensures Redact(needle, isAuthorization, s) == None <==> SomeLivePanics(needle, isAuthorization, s)
    decreases |s|, 0
  {
    var rest := s[i + |needle|..];
    FirstOccurrenceIsLive(needle, isAuthorization, s, i);
    EmptyValueIff(rest, isAuthorization);
    assert s[i + |needle|] == rest[0];
    if LivePanics(needle, isAuthorization, s, i) {
      EmptyValuePanics(needle, isAuthorization, s, i, rest);
    } else {
      var next := Behind(needle, isAuthorization, s, i);
      SuffixOfSuffix(s, i + |needle|, next - i - |needle|);
      PassGoesOn(needle, isAuthorization, s, i, rest, ValueLength(rest, isAuthorization), s[next..]);
      LivePanicsShifted(needle, isAuthorization, s, i, next);
      AnyPassPanicsIff(needle, isAuthorization, s[next..]);
    }
  }

  lemma {:induction false} SuffixOfSuffix(s: string, first: nat, second: nat)
    requires first + second <= |s|
    ensures s[first..][second..] == s[first + second..]
  {
  }

  lemma {:induction false} PassGoesOn(needle: string, isAuthorization: bool, s: string, i: nat, rest: string, n: nat,
      tail: string)
    requires needle != "" && Find(needle, s) == Some(i) && i + |needle| < |s| && rest == s[i + |needle|..]
    requires n == ValueLength(rest, isAuthorization) && (n > 0 || StepsOntoCharacter(rest[0]))
    requires tail == rest[if n > 0 then n else 1..]
    ensures Redact(needle, isAuthorization, s) == None <==> Redact(needle, isAuthorization, tail) == None
  {
    if n > 0 {
      ValueStep(needle, isAuthorization, s, i, rest, n);
    } else {
      EmptyValueGoesOn(needle, isAuthorization, s, i, rest);
    }
  }

  lemma {:induction false} EmptyValueIff(s: string, isAuthorization: bool)
    requires s != ""
    ensures ValueLength(s, isAuthorization) == 0 <==> IsTerminator(s[0])
  {
    if IsTerminator(s[0]) {
      assert s == [s[0]] + s[1..];
      NoValueStays(s[0], s[1..], isAuthorization);
    }
  }
}
