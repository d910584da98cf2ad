/** Masking secrets in log text: what follows a sensitive key and its separator is replaced by a
    marker, in place. Positions are character positions; the code's are byte positions, which differs
    in one place only (`StepsOntoCharacter`). */
module Redaction {
  import opened Options
  import opened Text
  import Utf8

  const MARKER := "***REDACTED***"
  const BEARER := "bearer "

  predicate IsTerminator(c: char) {
    IsWhitespace(c) || c in "\"',&;)(][{}"
  }

  function LowerChar(c: char): char {
    if 'A' <= c <= 'Z' then c - 'A' + 'a' else c
  }

  /** `to_ascii_lowercase`, which keeps every length and offset. */
  function Lower(s: string): (lower: string)
    ensures |lower| == |s|
  {
    seq(|s|, i requires 0 <= i < |s| => LowerChar(s[i]))
  }

  predicate OccursAt(needle: string, s: string, i: nat) {
    i + |needle| <= |s| && Lower(s)[i..i + |needle|] == needle
  }

  /** `lower.find(&needle)` */
  function Find(needle: string, s: string): (at: Option<nat>)
    ensures at.Some? ==> at.value + |needle| <= |s|
  {
    FindFrom(needle, s, 0)
  }

  function FindFrom(needle: string, s: string, i: nat): (at: Option<nat>)
    requires i <= |s|
    ensures at.Some? ==> at.value + |needle| <= |s|
    decreases |s| - i
  {
    if OccursAt(needle, s, i) then Some(i)
    else if i == |s| then None
    else FindFrom(needle, s, i + 1)
  }

  lemma {:induction false} FindFromIsFirst(needle: string, s: string, i: nat)
    requires i <= |s|
    ensures var at := FindFrom(needle, s, i);
            && (at.Some? ==> i <= at.value && OccursAt(needle, s, at.value) && forall j :: i <= j < at.value ==>
                !OccursAt(needle, s, j))
            && (at.None? ==> forall j :: i <= j ==> !OccursAt(needle, s, j))
    decreases |s| - i
  {
    if !OccursAt(needle, s, i) {
      if i < |s| {
        FindFromIsFirst(needle, s, i + 1);
        assert FindFrom(needle, s, i) == FindFrom(needle, s, i + 1);
      } else {
        assert forall j :: i < j ==> !OccursAt(needle, s, j);
      }
    }
  }

  function PlainLength(s: string): (n: nat)
    ensures n <= |s|
  {
    if s == "" || IsTerminator(s[0]) then 0 else 1 + PlainLength(s[1..])
  }

  /** How long the value at the start of `s` is. After an authorization key, "bearer " and the token
      behind it are one value. */
  function ValueLength(s: string, isAuthorization: bool): (n: nat)
    ensures n <= |s|
  {
    if isAuthorization && BEARER <= Lower(s) then |BEARER| + PlainLength(s[|BEARER|..]) else PlainLength(s)
  }

  /** After an empty value the code goes on one byte after the value's start. Unless the terminator
      there is a one-byte character, the next slice is off a character boundary and panics. */
  predicate StepsOntoCharacter(terminator: char) {
    terminator as int < 0x80
  }

  lemma {:induction false} OneByteCharacters(c: char)
    ensures StepsOntoCharacter(c) <==> |Utf8.EncodeChar(c)| == 1
  {
  }

  function Prepend(head: string, tail: Option<string>): Option<string> {
    if tail.Some? then Some(head + tail.value) else None
  }

  /** What the loop makes of the rest of the text; None stands for a panic. */
  function Redact(needle: string, isAuthorization: bool, s: string): Option<string>
    requires needle != ""
    decreases |s|
  {
    match Find(needle, s)
    case None => Some(s)
    case Some(i) =>
      var head, rest := s[..i + |needle|], s[i + |needle|..];
      if rest == "" then Some(s)
      else
        var n := ValueLength(rest, isAuthorization);
        if n > 0 then Prepend(head + MARKER, Redact(needle, isAuthorization, rest[n..]))
        else if StepsOntoCharacter(rest[0]) then Prepend(head + rest[..1], Redact(needle, isAuthorization, rest[1..]))
        else None
  }

  /** What the loop still has to produce when it has got to `from`. */
  function Outcome(needle: string, isAuthorization: bool, output: string, from: nat): Option<string>
    requires needle != "" && from <= |output|
  {
    Prepend(output[..from], Redact(needle, isAuthorization, output[from..]))
  }

  lemma {:induction false} NothingFound(needle: string, isAuthorization: bool, output: string, from: nat)
    requires needle != "" && from <= |output|
    requires var at := Find(needle, output[from..]); at.Some? ==> from + at.value + |needle| == |output|
    ensures Outcome(needle, isAuthorization, output, from) == Some(output)
  {
    assert output[..from] + output[from..] == output;
  }

  /** The next occurrence ends at `start`, and a value of length `n` follows. */
  predicate FoundAt(needle: string, isAuthorization: bool, output: string, from: nat, start: nat, n: nat) {
    && needle != "" && from + |needle| <= start < |output|
    && Find(needle, output[from..]) == Some(start - |needle| - from)
    && n == ValueLength(output[start..], isAuthorization)
  }

  lemma {:induction false} ValueSkipped(needle: string, isAuthorization: bool, output: string, from: nat, start: nat)
    requires FoundAt(needle, isAuthorization, output, from, start, 0)
    ensures Outcome(needle, isAuthorization, output, from)
         == if StepsOntoCharacter(output[start]) then Outcome(needle, isAuthorization, output, start + 1) else None
  {
    var s := output[from..];
    var head := s[..start - from];
    assert s[start - from..] == output[start..] && output[start..][1..] == output[start + 1..];
    assert output[..start + 1] == output[..from] + (head + output[start..][..1]);
    PrependTwice(output[..from], head + output[start..][..1], Redact(needle, isAuthorization, output[start + 1..]));
  }

  /** `output.replace_range(start..end, marker)` */
  function Replaced(output: string, start: nat, end: nat, marker: string): (replaced: string)
    requires start <= end <= |output|
    ensures |replaced| == |output| - (end - start) + |marker|
  {
    output[..start] + marker + output[end..]
  }

  lemma {:induction false} PartsOfReplaced(output: string, from: nat, start: nat, end: nat, marker: string)
    requires from <= start <= end <= |output|
    ensures var replaced := Replaced(output, start, end, marker);
            && replaced[start + |marker|..] == output[end..]
            && replaced[..start + |marker|] == output[..from] + (output[from..][..start - from] + marker)
            && output[from..][start - from..] == output[start..]
            && output[start..][end - start..] == output[end..]
  {
  }

  lemma {:induction false} ValueReplaced(needle: string, isAuthorization: bool, output: string, from: nat, start: nat,
      n: nat)
    requires FoundAt(needle, isAuthorization, output, from, start, n) && n > 0
    ensures Outcome(needle, isAuthorization, Replaced(output, start, start + n, MARKER), start + |MARKER|)
         == Outcome(needle, isAuthorization, output, from)
  {
    var marker := MARKER;
    PartsOfReplaced(output, from, start, start + n, marker);
    PrependTwice(output[..from], output[from..][..start - from] + marker,
        Redact(needle, isAuthorization, output[start + n..]));
  }

  /** `redact_after_key` and `redact_bearer_token`: the loop on one mutable string. It terminates
      although a replacement can be longer than what it replaces. */
  method RedactInPlace(input: string, needle: string, isAuthorization: bool) returns (result: Option<string>)
    requires needle != ""
    ensures result == Redact(needle, isAuthorization, input)
  {
    var output := input;
    var searchFrom := 0;
    ghost var goal := Redact(needle, isAuthorization, input);
    OutcomeAtStart(needle, isAuthorization, input);
    while searchFrom < |output|
      invariant 0 <= searchFrom <= |output|
      invariant Outcome(needle, isAuthorization, output, searchFrom) == goal
      decreases |output| - searchFrom
    {
      var relative := Find(needle, output[searchFrom..]);
      if relative.None? || searchFrom + relative.value + |needle| >= |output| {
        NothingFound(needle, isAuthorization, output, searchFrom);
        return Some(output);
      }
      var valueStart := searchFrom + relative.value + |needle|;
      var n := ValueLength(output[valueStart..], isAuthorization);
      assert FoundAt(needle, isAuthorization, output, searchFrom, valueStart, n);
      if n == 0 {
        ValueSkipped(needle, isAuthorization, output, searchFrom, valueStart);
        if !StepsOntoCharacter(output[valueStart]) {
          return None;
        }
        searchFrom := valueStart + 1;
      } else {
        ValueReplaced(needle, isAuthorization, output, searchFrom, valueStart, n);
        output := Replaced(output, valueStart, valueStart + n, MARKER);
        searchFrom := valueStart + |MARKER|;
      }
    }
    NothingFound(needle, isAuthorization, output, searchFrom);
    return Some(output);
  }

  lemma {:induction false} OutcomeAtStart(needle: string, isAuthorization: bool, input: string)
    requires needle != ""
    ensures Outcome(needle, isAuthorization, input, 0) == Redact(needle, isAuthorization, input)
  {
    var tail := Redact(needle, isAuthorization, input);
    assert input[..0] == "" && input[0..] == input;
    if tail.Some? {
      assert "" + tail.value == tail.value;
    }
  }

  lemma {:induction false} PrependTwice(a: string, b: string, tail: Option<string>)
    ensures Prepend(a, Prepend(b, tail)) == Prepend(a + b, tail)
  {
    if tail.Some? {
      assert a + (b + tail.value) == (a + b) + tail.value;
    }
  }

  // ---------------------------------------------------------------------------------------------
  // What is kept and what is replaced.

  datatype Piece = Kept(text: string) | Secret(text: string) | NoValue(text: string, terminator: char)

  function Pieces(needle: string, isAuthorization: bool, s: string): seq<Piece>
    requires needle != ""
    decreases |s|
  {
    match Find(needle, s)
    case None => [Kept(s)]
    case Some(i) =>
      var head, rest := s[..i + |needle|], s[i + |needle|..];
      if rest == "" then [Kept(s)]
      else
        var n := ValueLength(rest, isAuthorization);
        if n > 0 then [Kept(head), Secret(rest[..n])] + Pieces(needle, isAuthorization, rest[n..])
        else [NoValue(head, rest[0])] + Pieces(needle, isAuthorization, rest[1..])
  }

  function Original(pieces: seq<Piece>): string {
    if pieces == [] then ""
    else (match pieces[0]
          case Kept(text) => text
          case Secret(text) => text
          case NoValue(text, terminator) => text + [terminator]) + Original(pieces[1..])
  }

  function Masked(pieces: seq<Piece>): string {
    if pieces == [] then ""
    else (match pieces[0]
          case Kept(text) => text
          case Secret(_) => MARKER
          case NoValue(text, terminator) => text + [terminator]) + Masked(pieces[1..])
  }

  predicate Panics(pieces: seq<Piece>) {
    exists i :: 0 <= i < |pieces| && pieces[i].NoValue? && !StepsOntoCharacter(pieces[i].terminator)
  }

  lemma {:induction false} PiecesAfterOne(a: Piece, more: seq<Piece>)
    requires a.NoValue?
    ensures Original([a] + more) == a.text + [a.terminator] + Original(more)
    ensures Masked([a] + more) == a.text + [a.terminator] + Masked(more)
    ensures Panics([a] + more) <==> !StepsOntoCharacter(a.terminator) || Panics(more)
  {
    assert ([a] + more)[1..] == more;
    if Panics(more) {
      var i :| 0 <= i < |more| && more[i].NoValue? && !StepsOntoCharacter(more[i].terminator);
      assert ([a] + more)[i + 1] == more[i];
    }
    assert ([a] + more)[0] == a;
  }

  lemma {:induction false} PiecesAfterTwo(a: Piece, b: Piece, more: seq<Piece>)
    requires a.Kept? && b.Secret?
    ensures Original([a, b] + more) == a.text + b.text + Original(more)
    ensures Masked([a, b] + more) == a.text + MARKER + Masked(more)
    ensures Panics([a, b] + more) <==> Panics(more)
  {
    assert ([a, b] + more)[1..] == [b] + more && ([b] + more)[1..] == more;
    if Panics(more) {
      var i :| 0 <= i < |more| && more[i].NoValue? && !StepsOntoCharacter(more[i].terminator);
      assert ([a, b] + more)[i + 2] == more[i];
    }
  }

  lemma {:induction false} PiecesOfOne(text: string)
    ensures Original([Kept(text)]) == text && Masked([Kept(text)]) == text && !Panics([Kept(text)])
  {
    assert [Kept(text)][1..] == [];
  }

  /** The pieces make up the text, and the result is the same pieces with each secret, and nothing
      else, replaced by the marker; or a panic, exactly when a key without a value is followed by a
      terminator of more than one byte. */
  predicate IsCutInto(needle: string, isAuthorization: bool, s: string, pieces: seq<Piece>) {
    && needle != ""
    && Original(pieces) == s
    && Redact(needle, isAuthorization, s) == if Panics(pieces) then None else Some(Masked(pieces))
  }

  lemma {:induction false} NothingIsReplaced(needle: string, isAuthorization: bool, s: string)
    requires needle != "" && Redact(needle, isAuthorization, s) == Some(s)
    ensures IsCutInto(needle, isAuthorization, s, [Kept(s)])
  {
    PiecesOfOne(s);
  }

  lemma {:induction false} SecretIsReplaced(needle: string, isAuthorization: bool, s: string, i: nat, n: nat,
      more: seq<Piece>)
    requires needle != "" && Find(needle, s) == Some(i) && s[i + |needle|..] != ""
    requires n == ValueLength(s[i + |needle|..], isAuthorization) && n > 0
    requires IsCutInto(needle, isAuthorization, s[i + |needle|..][n..], more)
    ensures IsCutInto(needle, isAuthorization, s, [Kept(s[..i + |needle|]), Secret(s[i + |needle|..][..n])] + more)
  {
    var head, rest := s[..i + |needle|], s[i + |needle|..];
    PiecesAfterTwo(Kept(head), Secret(rest[..n]), more);
    assert head + rest[..n] + rest[n..] == s;
  }

  lemma {:induction false} EmptyValueIsKept(needle: string, isAuthorization: bool, s: string, i: nat, more: seq<Piece>)
    requires needle != "" && Find(needle, s) == Some(i) && s[i + |needle|..] != ""
    requires ValueLength(s[i + |needle|..], isAuthorization) == 0
    requires IsCutInto(needle, isAuthorization, s[i + |needle|..][1..], more)
    ensures IsCutInto(needle, isAuthorization, s, [NoValue(s[..i + |needle|], s[i + |needle|..][0])] + more)
  {
    var head, rest := s[..i + |needle|], s[i + |needle|..];
    PiecesAfterOne(NoValue(head, rest[0]), more);
    assert rest[..1] == [rest[0]];
    assert head + [rest[0]] + rest[1..] == s;
  }

  lemma {:induction false} OnlySecretsAreReplaced(needle: string, isAuthorization: bool, s: string)
    requires needle != ""
    ensures IsCutInto(needle, isAuthorization, s, Pieces(needle, isAuthorization, s))
    decreases |s|
  {
    var at := Find(needle, s);
    if at.None? || s[at.value + |needle|..] == "" {
      NothingIsReplaced(needle, isAuthorization, s);
    } else {
      var i := at.value;
      var rest := s[i + |needle|..];
      var n := ValueLength(rest, isAuthorization);
      if n > 0 {
        OnlySecretsAreReplaced(needle, isAuthorization, rest[n..]);
        SecretIsReplaced(needle, isAuthorization, s, i, n, Pieces(needle, isAuthorization, rest[n..]));
      } else {
        OnlySecretsAreReplaced(needle, isAuthorization, rest[1..]);
        EmptyValueIsKept(needle, isAuthorization, s, i, Pieces(needle, isAuthorization, rest[1..]));
      }
    }
  }
}
