/** What a pass keeps and what it replaces, said of the text alone. */
module RedactionPieces {
  import opened Options
  import opened Redaction
  import opened RedactionTheorems

  /** `head` is the beginning of `s` up to the end of the first occurrence of the key. */
  predicate EndsWithFirst(needle: string, head: string, s: string) {
    && |needle| <= |head| && head <= s
    && OccursAt(needle, s, |head| - |needle|)
    && forall j :: 0 <= j < |head| - |needle| ==> !OccursAt(needle, s, j)
  }

  /** From where on a value holds no terminator: after an authorization key, "bearer " belongs to it. */
  function PlainFrom(text: string, isAuthorization: bool): nat {
    if isAuthorization && BEARER <= Lower(text) then |BEARER| else 0
  }

  /** A value between its key and `behind`: not empty, without a terminator but for the blank of
      "bearer ", and as long as possible. */
  predicate IsValue(value: string, behind: string, isAuthorization: bool) {
    && value != "" && PlainFrom(value + behind, isAuthorization) <= |value|
    && (forall k :: PlainFrom(value + behind, isAuthorization) <= k < |value| ==> !IsTerminator(value[k]))
    && (behind == "" || IsTerminator(behind[0]))
  }

  /** The text up to each occurrence of the key is kept; what is behind it is a secret if it is a value,
      and otherwise begins with a terminator; then the same again. The last piece holds no occurrence
      but at its end. */
  predicate IsWellCut(needle: string, isAuthorization: bool, pieces: seq<Piece>, s: string)
    decreases |pieces|
  {
    if pieces == [] || pieces[0].Secret? then false
    else if pieces[0].NoValue? then
      var behind := Original(pieces[1..]);
      && s == pieces[0].text + [pieces[0].terminator] + behind
      && EndsWithFirst(needle, pieces[0].text, s)
      && IsTerminator(pieces[0].terminator)
      && IsWellCut(needle, isAuthorization, pieces[1..], behind)
    else if |pieces| == 1 then
      s == pieces[0].text && forall j :: 0 <= j <= |s| && OccursAt(needle, s, j) ==> j + |needle| == |s|
    else
      var behind := Original(pieces[2..]);
      && pieces[1].Secret?
      && s == pieces[0].text + pieces[1].text + behind
      && EndsWithFirst(needle, pieces[0].text, s)
      && IsValue(pieces[1].text, behind, isAuthorization)
      && IsWellCut(needle, isAuthorization, pieces[2..], behind)
  }

  /** The length of the value at the start of a text is the length of the only value there. */
  lemma {:induction false} IsValueIff(value: string, behind: string, isAuthorization: bool)
    ensures IsValue(value, behind, isAuthorization)
       <==> value != "" && ValueLength(value + behind, isAuthorization) == |value|
  {
    var text := value + behind;
    var from := PlainFrom(text, isAuthorization);
    if IsValue(value, behind, isAuthorization) {
      PlainPartIff(value, behind, from);
    }
    if value != "" && ValueLength(text, isAuthorization) == |value| {
      PlainPartIff(value, behind, from);
    }
  }

  lemma {:induction false} PlainPartIff(value: string, behind: string, from: nat)
    requires from <= |value|
    ensures PlainLength((value + behind)[from..]) == |value| - from
       <==> (forall k :: from <= k < |value| ==> !IsTerminator(value[k])) && (behind == "" || IsTerminator(behind[0]))
  {
    var plain, n := (value + behind)[from..], |value| - from;
    assert forall k :: 0 <= k < n ==> plain[k] == value[from + k];
    assert behind != "" ==> plain[n] == behind[0];
    if PlainLength(plain) == n {
      PlainLengthIsPlain(plain);
      PlainLengthEnds(plain);
      forall k | from <= k < |value|
        ensures !IsTerminator(value[k])
      {
        assert plain[k - from] == value[k];
      }
    }
    if (forall k :: from <= k < |value| ==> !IsTerminator(value[k])) && (behind == "" || IsTerminator(behind[0])) {
      PlainLengthAt(plain, n);
    }
  }

  lemma {:induction false} NoValueIff(c: char, behind: string, isAuthorization: bool)
    ensures ValueLength([c] + behind, isAuthorization) == 0 <==> IsTerminator(c)
  {
    if IsTerminator(c) {
      NoValueStays(c, behind, isAuthorization);
    } else {
      EmptyOnlyAtTerminator([c] + behind, isAuthorization);
    }
  }

  lemma {:induction false} EmptyOnlyAtTerminator(s: string, isAuthorization: bool)
    requires s != "" && !IsTerminator(s[0])
    ensures ValueLength(s, isAuthorization) > 0
  {
  }

  lemma {:induction false} FirstIff(needle: string, head: string, s: string)
    requires head <= s
    ensures EndsWithFirst(needle, head, s) <==> |needle| <= |head| && Find(needle, s) == Some(|head| - |needle|)
  {
    FindFromIsFirst(needle, s, 0);
    if EndsWithFirst(needle, head, s) {
      SameFirst(needle, s, s, |head| - |needle|);
    }
  }

  // ---------------------------------------------------------------------------------------------
  // The pieces of a pass are well cut, and no others are.

  lemma {:induction false} SecretPiecesIff(needle: string, isAuthorization: bool, s: string, head: string,
      value: string,
      behind: string)
    requires needle != "" && s == head + value + behind
    ensures EndsWithFirst(needle, head, s) && IsValue(value, behind, isAuthorization)
       <==> && |needle| <= |head| && Find(needle, s) == Some(|head| - |needle|)
            && value != "" && ValueLength(s[|head|..], isAuthorization) == |value|
  {
    assert head <= s && s[|head|..] == value + behind;
    FirstIff(needle, head, s);
    IsValueIff(value, behind, isAuthorization);
  }

  lemma {:induction false} NoValuePiecesIff(needle: string, isAuthorization: bool, s: string, head: string, c: char,
      behind: string)
    requires needle != "" && s == head + [c] + behind
    ensures EndsWithFirst(needle, head, s) && IsTerminator(c)
       <==> && |needle| <= |head| && Find(needle, s) == Some(|head| - |needle|)
            && ValueLength(s[|head|..], isAuthorization) == 0
  {
    assert head <= s && s[|head|..] == [c] + behind;
    FirstIff(needle, head, s);
    NoValueIff(c, behind, isAuthorization);
  }

  lemma {:induction false} LastPieceIff(needle: string, s: string)
    requires needle != ""
    ensures (forall j :: 0 <= j <= |s| && OccursAt(needle, s, j) ==> j + |needle| == |s|)
       <==> var at := Find(needle, s); at.Some? ==> at.value + |needle| == |s|
  {
    FindFromIsFirst(needle, s, 0);
  }

  lemma {:induction false} PiecesAtAValue(needle: string, isAuthorization: bool, s: string, h: nat, rest: string,
      n: nat)
    requires needle != "" && |needle| <= h < |s| && Find(needle, s) == Some(h - |needle|)
    requires rest == s[h..] && 0 < n == ValueLength(rest, isAuthorization)
    ensures Pieces(needle, isAuthorization, s)
         == [Kept(s[..h]), Secret(rest[..n])] + Pieces(needle, isAuthorization, rest[n..])
  {
  }

  lemma {:induction false} PiecesAtNoValue(needle: string, isAuthorization: bool, s: string, h: nat, rest: string)
    requires needle != "" && |needle| <= h < |s| && Find(needle, s) == Some(h - |needle|)
    requires rest == s[h..] && ValueLength(rest, isAuthorization) == 0
    ensures Pieces(needle, isAuthorization, s)
        == [NoValue(s[..h], rest[0])] + Pieces(needle, isAuthorization, rest[1..])
  {
  }

  lemma {:induction false} PartsOfThree(a: string, b: string, c: string)
    ensures var s := a + b + c; s[..|a|] == a && s[|a|..] == b + c && (b + c)[..|b|] == b && (b + c)[|b|..] == c
  {
  }

  lemma {:induction false} PiecesBehindAValue(needle: string, isAuthorization: bool, s: string, head: string,
      value: string, behind: string)
    requires needle != "" && s == head + value + behind
    requires |needle| <= |head| && Find(needle, s) == Some(|head| - |needle|)
    requires value != "" && ValueLength(s[|head|..], isAuthorization) == |value|
    ensures Pieces(needle, isAuthorization, s) == [Kept(head), Secret(value)] + Pieces(needle, isAuthorization, behind)
  {
    PartsOfThree(head, value, behind);
    PiecesAtAValue(needle, isAuthorization, s, |head|, value + behind, |value|);
  }

  lemma {:induction false} PiecesBehindNoValue(needle: string, isAuthorization: bool, s: string, head: string, c: char,
      behind: string)
    requires needle != "" && s == head + [c] + behind
    requires |needle| <= |head| && Find(needle, s) == Some(|head| - |needle|)
    requires ValueLength(s[|head|..], isAuthorization) == 0
    ensures Pieces(needle, isAuthorization, s) == [NoValue(head, c)] + Pieces(needle, isAuthorization, behind)
  {
    PartsOfThree(head, [c], behind);
    PiecesAtNoValue(needle, isAuthorization, s, |head|, [c] + behind);
  }

  lemma {:induction false} OnlyPiece(needle: string, isAuthorization: bool, s: string)
    requires needle != ""
    requires var at := Find(needle, s); at.Some? ==> at.value + |needle| == |s|
    ensures Pieces(needle, isAuthorization, s) == [Kept(s)]
  {
  }

  lemma {:induction false} PiecesAreSome(needle: string, isAuthorization: bool, s: string)
    requires needle != ""
    ensures Pieces(needle, isAuthorization, s) != [] && Original(Pieces(needle, isAuthorization, s)) == s
  {
    OnlySecretsAreReplaced(needle, isAuthorization, s);
  }

  lemma {:induction false} PiecesAreWellCut(needle: string, isAuthorization: bool, s: string)
    requires needle != ""
    ensures IsWellCut(needle, isAuthorization, Pieces(needle, isAuthorization, s), s)
    decreases |s|, 1
  {
    var at := Find(needle, s);
    if at.Some? && at.value + |needle| < |s| {
      PiecesFromFirst(needle, isAuthorization, s, at.value + |needle|);
    } else {
      LastIsWellCut(needle, isAuthorization, s);
    }
  }

  lemma {:induction false} PiecesFromFirst(needle: string, isAuthorization: bool, s: string, h: nat)
    requires needle != "" && |needle| <= h < |s| && Find(needle, s) == Some(h - |needle|)
    ensures IsWellCut(needle, isAuthorization, Pieces(needle, isAuthorization, s), s)
    decreases |s|, 0
  {
    var n := ValueLength(s[h..], isAuthorization);
    if n > 0 {
      PiecesAreWellCut(needle, isAuthorization, s[h + n..]);
      SecretAtIsWellCut(needle, isAuthorization, s, h, n);
    } else {
      PiecesAreWellCut(needle, isAuthorization, s[h + 1..]);
      NoValueAtIsWellCut(needle, isAuthorization, s, h);
    }
  }

  lemma {:induction false} LastIsWellCut(needle: string, isAuthorization: bool, s: string)
    requires needle != ""
    requires var at := Find(needle, s); at.Some? ==> at.value + |needle| == |s|
    ensures IsWellCut(needle, isAuthorization, Pieces(needle, isAuthorization, s), s)
  {
    OnlyPiece(needle, isAuthorization, s);
    LastPieceIff(needle, s);
  }

  lemma {:induction false} SecretAtIsWellCut(needle: string, isAuthorization: bool, s: string, h: nat, n: nat)
    requires needle != "" && |needle| <= h < |s| && Find(needle, s) == Some(h - |needle|)
    requires 0 < n == ValueLength(s[h..], isAuthorization)
    requires IsWellCut(needle, isAuthorization, Pieces(needle, isAuthorization, s[h + n..]), s[h + n..])
    ensures IsWellCut(needle, isAuthorization, Pieces(needle, isAuthorization, s), s)
  {
    assert s == s[..h] + s[h..h + n] + s[h + n..];
    SecretIsWellCut(needle, isAuthorization, s, s[..h], s[h..h + n], s[h + n..]);
  }

  lemma {:induction false} NoValueAtIsWellCut(needle: string, isAuthorization: bool, s: string, h: nat)
    requires needle != "" && |needle| <= h < |s| && Find(needle, s) == Some(h - |needle|)
    requires ValueLength(s[h..], isAuthorization) == 0
    requires IsWellCut(needle, isAuthorization, Pieces(needle, isAuthorization, s[h + 1..]), s[h + 1..])
    ensures IsWellCut(needle, isAuthorization, Pieces(needle, isAuthorization, s), s)
  {
    assert s == s[..h] + [s[h]] + s[h + 1..];
    NoValueIsWellCut(needle, isAuthorization, s, s[..h], s[h], s[h + 1..]);
  }

  lemma {:induction false} SecretIsWellCut(needle: string, isAuthorization: bool, s: string, head: string,
      value: string, behind: string)
    requires needle != "" && s == head + value + behind
    requires |needle| <= |head| && Find(needle, s) == Some(|head| - |needle|)
    requires value != "" && ValueLength(s[|head|..], isAuthorization) == |value|
    requires IsWellCut(needle, isAuthorization, Pieces(needle, isAuthorization, behind), behind)
    ensures IsWellCut(needle, isAuthorization, Pieces(needle, isAuthorization, s), s)
  {
    PiecesBehindAValue(needle, isAuthorization, s, head, value, behind);
    SecretPiecesIff(needle, isAuthorization, s, head, value, behind);
    PiecesAreSome(needle, isAuthorization, behind);
    SecretInFront(needle, isAuthorization, s, head, value, Pieces(needle, isAuthorization, behind));
  }

  lemma {:induction false} NoValueIsWellCut(needle: string, isAuthorization: bool, s: string, head: string, c: char,
      behind: string)
    requires needle != "" && s == head + [c] + behind
    requires |needle| <= |head| && Find(needle, s) == Some(|head| - |needle|)
    requires ValueLength(s[|head|..], isAuthorization) == 0
    requires IsWellCut(needle, isAuthorization, Pieces(needle, isAuthorization, behind), behind)
    ensures IsWellCut(needle, isAuthorization, Pieces(needle, isAuthorization, s), s)
  {
    PiecesBehindNoValue(needle, isAuthorization, s, head, c, behind);
    NoValuePiecesIff(needle, isAuthorization, s, head, c, behind);
    PiecesAreSome(needle, isAuthorization, behind);
    NoValueInFront(needle, isAuthorization, s, head, c, Pieces(needle, isAuthorization, behind));
  }

  lemma {:induction false} SecretInFront(needle: string, isAuthorization: bool, s: string, head: string, value: string,
      more: seq<Piece>)
    requires s == head + value + Original(more) && EndsWithFirst(needle, head, s)
    requires IsValue(value, Original(more), isAuthorization)
    requires more != [] && IsWellCut(needle, isAuthorization, more, Original(more))
    ensures IsWellCut(needle, isAuthorization, [Kept(head), Secret(value)] + more, s)
  {
    assert ([Kept(head), Secret(value)] + more)[2..] == more;
  }

  lemma {:induction false} NoValueInFront(needle: string, isAuthorization: bool, s: string, head: string, c: char,
      more: seq<Piece>)
    requires s == head + [c] + Original(more) && EndsWithFirst(needle, head, s) && IsTerminator(c)
    requires IsWellCut(needle, isAuthorization, more, Original(more))
    ensures IsWellCut(needle, isAuthorization, [NoValue(head, c)] + more, s)
  {
    assert ([NoValue(head, c)] + more)[1..] == more;
  }

  lemma {:induction false} WellCutIsThePieces(needle: string, isAuthorization: bool, pieces: seq<Piece>, s: string)
    requires needle != "" && IsWellCut(needle, isAuthorization, pieces, s)
    ensures pieces == Pieces(needle, isAuthorization, s)
    decreases |pieces|
  {
    if pieces[0].NoValue? {
      WellCutIsThePieces(needle, isAuthorization, pieces[1..], Original(pieces[1..]));
      NoValueCase(needle, isAuthorization, pieces, s);
    } else if |pieces| > 1 {
      WellCutIsThePieces(needle, isAuthorization, pieces[2..], Original(pieces[2..]));
      SecretCase(needle, isAuthorization, pieces, s);
    } else {
      LastCase(needle, isAuthorization, pieces, s);
    }
  }

  lemma {:induction false} LastCase(needle: string, isAuthorization: bool, pieces: seq<Piece>, s: string)
    requires needle != "" && IsWellCut(needle, isAuthorization, pieces, s) && |pieces| == 1 && pieces[0].Kept?
    ensures pieces == Pieces(needle, isAuthorization, s)
  {
    LastPieceIff(needle, s);
    OnlyPiece(needle, isAuthorization, s);
  }

  lemma {:induction false} NoValueCase(needle: string, isAuthorization: bool, pieces: seq<Piece>, s: string)
    requires needle != "" && IsWellCut(needle, isAuthorization, pieces, s) && pieces[0].NoValue?
    requires pieces[1..] == Pieces(needle, isAuthorization, Original(pieces[1..]))
    ensures pieces == Pieces(needle, isAuthorization, s)
  {
    assert pieces == [pieces[0]] + pieces[1..];
    NoValueIsThePieces(needle, isAuthorization, pieces[0].text, pieces[0].terminator, pieces[1..], s);
  }

  lemma {:induction false} SecretCase(needle: string, isAuthorization: bool, pieces: seq<Piece>, s: string)
    requires needle != "" && IsWellCut(needle, isAuthorization, pieces, s) && pieces[0].Kept? && |pieces| > 1
    requires pieces[2..] == Pieces(needle, isAuthorization, Original(pieces[2..]))
    ensures pieces == Pieces(needle, isAuthorization, s)
  {
    SecretCut(needle, isAuthorization, pieces, s);
    SecretIsThePieces(needle, isAuthorization, pieces[0].text, pieces[1].text, pieces[2..], s);
    TwoAndTheRest(pieces);
  }

  lemma {:induction false} SecretCut(needle: string, isAuthorization: bool, pieces: seq<Piece>, s: string)
    requires IsWellCut(needle, isAuthorization, pieces, s) && pieces[0].Kept? && |pieces| > 1
    ensures pieces[1].Secret? && s == pieces[0].text + pieces[1].text + Original(pieces[2..])
    ensures EndsWithFirst(needle, pieces[0].text, s) && IsValue(pieces[1].text, Original(pieces[2..]), isAuthorization)
  {
  }

  lemma {:induction false} TwoAndTheRest(pieces: seq<Piece>)
    requires |pieces| > 1
    ensures pieces == [pieces[0], pieces[1]] + pieces[2..]
  {
  }

  lemma {:induction false} NoValueIsThePieces(needle: string, isAuthorization: bool, head: string, c: char,
      more: seq<Piece>, s: string)
    requires needle != "" && s == head + [c] + Original(more) && EndsWithFirst(needle, head, s) && IsTerminator(c)
    requires more == Pieces(needle, isAuthorization, Original(more))
    ensures [NoValue(head, c)] + more == Pieces(needle, isAuthorization, s)
  {
    NoValuePiecesIff(needle, isAuthorization, s, head, c, Original(more));
    PiecesBehindNoValue(needle, isAuthorization, s, head, c, Original(more));
  }

  lemma {:induction false} SecretIsThePieces(needle: string, isAuthorization: bool, head: string, value: string,
      more: seq<Piece>, s: string)
    requires needle != "" && s == head + value + Original(more) && EndsWithFirst(needle, head, s)
    requires IsValue(value, Original(more), isAuthorization)
    requires more == Pieces(needle, isAuthorization, Original(more))
    ensures [Kept(head), Secret(value)] + more == Pieces(needle, isAuthorization, s)
  {
    SecretPiecesIff(needle, isAuthorization, s, head, value, Original(more));
    PiecesBehindAValue(needle, isAuthorization, s, head, value, Original(more));
  }

  /** Every text has exactly one such cut. The result of a pass is that cut with each secret, and nothing
      else, replaced by the marker; or a panic, exactly when a piece without a value ends in a terminator
      of more than one byte. */
  lemma {:induction false} RedactReplacesTheSecrets(needle: string, isAuthorization: bool, s: string)
    requires needle != ""
    ensures exists pieces :: IsWellCut(needle, isAuthorization, pieces, s)
    ensures forall pieces :: IsWellCut(needle, isAuthorization, pieces, s) ==>
              && pieces == Pieces(needle, isAuthorization, s)
              && Original(pieces) == s
              && Redact(needle, isAuthorization, s) == if Panics(pieces) then None else Some(Masked(pieces))
  {
    PiecesAreWellCut(needle, isAuthorization, s);
    OnlySecretsAreReplaced(needle, isAuthorization, s);
    forall pieces | IsWellCut(needle, isAuthorization, pieces, s)
      ensures pieces == Pieces(needle, isAuthorization, s)
    {
      WellCutIsThePieces(needle, isAuthorization, pieces, s);
    }
  }
}
