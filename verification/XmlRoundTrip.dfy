/** When printing tool calls and finding them again loses nothing but their ids. */
module XmlRoundTrip {
  import opened Options
  import opened JsonValues
  import opened Text
  import opened XmlCalls

  function Erased(calls: seq<ParsedToolCall>): seq<ParsedToolCall> {
    seq(|calls|, i requires 0 <= i < |calls| => calls[i].(toolCallId := None))
  }

  /** The JSON library reads back what it prints; and no proper beginning of printed arguments that
      close their own element reads as the same arguments. For JSON text both hold: such arguments
      hold a string with the closing tags, so that the beginning ends inside the string. */
  predicate IsReadable(json: Codec, call: ParsedToolCall) {
    var text := json.render(call.arguments);
    && json.parse(Trim(text)) == Some(call.arguments)
    && (ClosesArgs(text) ==> forall n: nat :: n < |text| ==>
        ToCall(json, (call.name, text[..n])).arguments != call.arguments)
  }

  predicate SurvivesPrinting(json: Codec, call: ParsedToolCall) {
    !IsClosed(json, call) && Trim(call.name) == call.name
  }

  lemma {:induction false} TrimStartIsShorter(s: string)
    ensures |TrimStart(s)| <= |s|
  {
    if s != "" && IsWhitespace(s[0]) {
      TrimStartIsShorter(s[1..]);
    }
  }

  lemma {:induction false} TrimEndIsShorter(s: string)
    ensures |TrimEnd(s)| <= |s|
  {
    if s != "" && IsWhitespace(s[|s| - 1]) {
      TrimEndIsShorter(s[..|s| - 1]);
    }
  }

  lemma {:induction false} TrimIsShorter(s: string)
    ensures |Trim(s)| <= |s|
  {
    TrimStartIsShorter(s);
    TrimEndIsShorter(TrimStart(s));
  }

  lemma {:induction false} CapturedArgsAreAPrefix(s: string)
    requires MatchArgs(s).Some?
    ensures MatchArgs(s).value.0 <= s
  {
    if CloseArgsHere(s).None? {
      CapturedArgsAreAPrefix(s[1..]);
      assert s == [s[0]] + s[1..];
    }
  }

  /** What the first call of a printed list is found as. */
  lemma {:induction false} FirstCapture(name: string, args: string, more: string)
    ensures var text := FormatCall(name, args, more);
            && MatchCall(text).Some?
            && Captures(text)
                == [(MatchCall(text).value.0, MatchCall(text).value.1)] + Captures(MatchCall(text).value.2)
            && (ClosesName(name) ==> |MatchCall(text).value.0| < |name|)
            && (!ClosesName(name) ==> MatchCall(text).value.0 == name)
            && (!ClosesName(name) && ClosesArgs(args) ==>
                  MatchCall(text).value.1 <= args && |MatchCall(text).value.1| < |args|)
            && (!ClosesName(name) && !ClosesArgs(args) ==> MatchCall(text).value == (name, args, "\n" + more))
  {
    MatchCallOfPrinted(name, args, more);
    MatchNameOfPrinted(name, args, more);
    MatchArgsOfPrinted(args, more);
    FirstCaptureIsTaken(FormatCall(name, args, more));
    CapturedArgsAreAPrefix(args + Tail(more));
    var captured := MatchArgs(args + Tail(more)).value.0;
    if |captured| < |args| {
      assert captured == (args + Tail(more))[..|captured|] == args[..|captured|];
    }
  }

  lemma {:induction false} FirstCaptureIsTaken(text: string)
    requires MatchCall(text).Some?
    ensures Captures(text) == [(MatchCall(text).value.0, MatchCall(text).value.1)] + Captures(MatchCall(text).value.2)
  {
  }

  /** A call that does not survive is found as something else. */
  lemma {:induction false} LostCallIsFoundAsAnother(json: Codec, call: ParsedToolCall, more: string)
    requires IsReadable(json, call)
    ensures var text := FormatCall(call.name, json.render(call.arguments), more);
            && MatchCall(text).Some?
            && (ToCall(json, (MatchCall(text).value.0, MatchCall(text).value.1)) == call.(toolCallId := None)
                <==> SurvivesPrinting(json, call))
  {
    var args := json.render(call.arguments);
    FirstCapture(call.name, args, more);
    var (n, a, rest) := MatchCall(FormatCall(call.name, args, more)).value;
    if ClosesName(call.name) {
      TrimIsShorter(n);
    } else if ClosesArgs(args) {
      assert a == args[..|a|];
    }
  }

  /** Given that the JSON library reads back what it prints: for every list of calls, parsing the printed
      text gives the list without its ids if and only if all names are trimmed and no call closes its
      own element. */
  lemma {:induction false} RoundTripIff(json: Codec, calls: seq<ParsedToolCall>)
    requires forall i :: 0 <= i < |calls| ==> IsReadable(json, calls[i])
    ensures ParseCalls(json, FormatCalls(json, calls)) == Erased(calls)
       <==> forall i :: 0 <= i < |calls| ==> SurvivesPrinting(json, calls[i])
    decreases |calls|
  {
    if calls != [] {
      assert IsReadable(json, calls[0]);
      assert forall i :: 0 <= i < |calls[1..]| ==> calls[1..][i] == calls[i + 1];
      RoundTripIff(json, calls[1..]);
      FirstAndRest(json, calls);
      AllIsFirstAndRest(json, calls);
    }
  }

  lemma {:induction false} AllIsFirstAndRest(json: Codec, calls: seq<ParsedToolCall>)
    requires calls != []
    ensures (forall i :: 0 <= i < |calls| ==> SurvivesPrinting(json, calls[i]))
       <==> SurvivesPrinting(json, calls[0]) && forall i :: 0 <= i < |calls[1..]| ==>
           SurvivesPrinting(json, calls[1..][i])
  {
    assert forall i :: 0 < i < |calls| ==> calls[i] == calls[1..][i - 1];
    assert forall i :: 0 <= i < |calls[1..]| ==> calls[1..][i] == calls[i + 1];
  }

  lemma {:induction false} FirstAndRest(json: Codec, calls: seq<ParsedToolCall>)
    requires calls != [] && IsReadable(json, calls[0])
    ensures ParseCalls(json, FormatCalls(json, calls)) == Erased(calls)
       <==> SurvivesPrinting(json, calls[0]) && ParseCalls(json, FormatCalls(json, calls[1..])) == Erased(calls[1..])
  {
    var args, more := json.render(calls[0].arguments), FormatCalls(json, calls[1..]);
    var text := FormatCall(calls[0].name, args, more);
    FirstCapture(calls[0].name, args, more);
    LostCallIsFoundAsAnother(json, calls[0], more);
    var (n, a, rest) := MatchCall(text).value;
    FirstParsed(json, text, n, a, rest);
    ErasedFirst(calls);
    if SurvivesPrinting(json, calls[0]) {
      LineFeedIsSkipped(more);
      assert ParseCalls(json, rest) == ParseCalls(json, more);
    }
    SameHeads(ToCall(json, (n, a)), calls[0].(toolCallId := None), ParseCalls(json, rest), Erased(calls[1..]));
  }

  lemma {:induction false} FirstParsed(json: Codec, text: string, n: string, a: string, rest: string)
    requires Captures(text) == [(n, a)] + Captures(rest)
    ensures ParseCalls(json, text) == [ToCall(json, (n, a))] + ParseCalls(json, rest)
  {
  }

  lemma {:induction false} ErasedFirst(calls: seq<ParsedToolCall>)
    requires calls != []
    ensures Erased(calls) == [calls[0].(toolCallId := None)] + Erased(calls[1..])
  {
  }

  lemma {:induction false} SameHeads(
      x: ParsedToolCall, y: ParsedToolCall, a: seq<ParsedToolCall>, b: seq<ParsedToolCall>)
    ensures [x] + a == [y] + b <==> x == y && a == b
  {
    assert ([x] + a)[0] == x && ([y] + b)[0] == y;
    assert ([x] + a)[1..] == a && ([y] + b)[1..] == b;
  }

  /** A name that closes its own element is found as another name, whatever the JSON library does. */
  lemma {:induction false} ClosedNameIsLost(json: Codec, arguments: Json)
    ensures var call := ParsedToolCall("</name><arguments>", arguments, None);
            IsClosed(json, call) && ParseCalls(json, FormatCalls(json, [call])) != Erased([call])
  {
    var call := ParsedToolCall("</name><arguments>", arguments, None);
    ClosedNameCloses(call.name);
    var args := json.render(arguments);
    FirstCapture(call.name, args, "");
    assert FormatCalls(json, [call]) == FormatCall(call.name, args, "") by { assert [call][1..] == []; }
    var (n, a, rest) := MatchCall(FormatCall(call.name, args, "")).value;
    TrimIsShorter(n);
    assert ParseCalls(json, FormatCalls(json, [call]))[0] == ToCall(json, (n, a));
    assert Erased([call])[0].name == call.name;
  }

  lemma {:induction false} ClosedNameCloses(name: string)
    requires name == "</name><arguments>"
    ensures ClosesName(name)
  {
    assert name == CLOSE_NAME + OPEN_ARGS;
    assert name[0..] == name && name[|CLOSE_NAME|..] == OPEN_ARGS;
    assert TrimStart(OPEN_ARGS) == OPEN_ARGS;
    assert CloseNameHere(name[0..]).Some?;
  }
}
