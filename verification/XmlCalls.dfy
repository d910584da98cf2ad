/** Tool calls written as XML text into the history, and found again in text by a regular
    expression with lazy captures. */
module XmlCalls {
  import opened Options
  import opened JsonValues
  import opened Text

  datatype ParsedToolCall = ParsedToolCall(name: string, arguments: Json, toolCallId: Option<string>)

  const OPEN_CALL := "<tool_call>"
  const OPEN_NAME := "<name>"
  const CLOSE_NAME := "</name>"
  const OPEN_ARGS := "<arguments>"
  const CLOSE_ARGS := "</arguments>"
  const CLOSE_CALL := "</tool_call>"

  // ---------------------------------------------------------------------------------------------
  // Printing.

  /** What follows the arguments of a call. */
  function Tail(more: string): string {
    CLOSE_ARGS + "\n" + CLOSE_CALL + "\n" + more
  }

  /** What follows the name of a call. */
  function Middle(args: string, more: string): string {
    CLOSE_NAME + "\n" + OPEN_ARGS + args + Tail(more)
  }

  function FormatCall(name: string, args: string, more: string): string {
    OPEN_CALL + "\n" + OPEN_NAME + name + Middle(args, more)
  }

  function FormatCalls(json: Codec, calls: seq<ParsedToolCall>): string {
    if calls == [] then ""
    else FormatCall(calls[0].name, json.render(calls[0].arguments), FormatCalls(json, calls[1..]))
  }

  /** `format_calls_xml` */
  method FormatCallsXml(json: Codec, calls: seq<ParsedToolCall>) returns (xml: string)
    ensures xml == FormatCalls(json, calls)
  {
    xml := "";
    for k := 0 to |calls|
      invariant xml + FormatCalls(json, calls[k..]) == FormatCalls(json, calls)
    {
      assert calls[k..][1..] == calls[k + 1..];
      var before := xml;
      var args := json.render(calls[k].arguments);
      xml := xml + "<tool_call>\n<name>";
      xml := xml + calls[k].name;
      xml := xml + "</name>\n<arguments>";
      xml := xml + args;
      xml := xml + "</arguments>\n</tool_call>\n";
      PiecesOfACall(before, calls[k].name, args, FormatCalls(json, calls[k + 1..]));
    }
    assert calls[|calls|..] == [];
  }

  lemma {:induction false} PiecesOfACall(before: string, name: string, args: string, more: string)
    ensures before + "<tool_call>\n<name>" + name + "</name>\n<arguments>" + args + "</arguments>\n</tool_call>\n"
        + more
         == before + FormatCall(name, args, more)
  {
    assert "<tool_call>\n<name>" == OPEN_CALL + "\n" + OPEN_NAME;
    assert "</name>\n<arguments>" == CLOSE_NAME + "\n" + OPEN_ARGS;
    assert "</arguments>\n</tool_call>\n" == CLOSE_ARGS + "\n" + CLOSE_CALL + "\n";
    AppendPieces(before, "<tool_call>\n<name>", name, "</name>\n<arguments>", args, "</arguments>\n</tool_call>\n",
        more);
  }

  lemma {:induction false} AppendPieces(before: string, open: string, name: string, middle: string, args: string,
      close: string,
      more: string)
    ensures before + open + name + middle + args + close + more == before + (open + name + middle + args + close + more)
  {
  }

  // ---------------------------------------------------------------------------------------------
  // Matching. A capture `(.*?)` takes the fewest characters for which the rest of the expression
  // matches; `\s*` is followed by '<', so it takes all the whitespace there is.

  function After(s: string, prefix: string): Option<string> {
    if prefix <= s then Some(s[|prefix|..]) else None
  }

  /** `</arguments>\s*</tool_call>` at the start of `s`; what follows it. */
  function CloseArgsHere(s: string): Option<string> {
    match After(s, CLOSE_ARGS)
    case None => None
    case Some(rest) => After(TrimStart(rest), CLOSE_CALL)
  }

  /** `(.*?)</arguments>\s*</tool_call>`: the capture and what follows the match. */
  function MatchArgs(s: string): Option<(string, string)> {
    var here := CloseArgsHere(s);
    if here.Some? then Some(("", here.value))
    else if s == "" then None
    else
      match MatchArgs(s[1..])
      case None => None
      case Some((args, rest)) => Some(([s[0]] + args, rest))
  }

  /** `</name>\s*<arguments>` at the start of `s`; what follows it. */
  function CloseNameHere(s: string): Option<string> {
    match After(s, CLOSE_NAME)
    case None => None
    case Some(rest) => After(TrimStart(rest), OPEN_ARGS)
  }

  function MatchName(s: string): Option<(string, string, string)> {
    var here := CloseNameHere(s);
    if here.Some? && MatchArgs(here.value).Some? then
      var (args, rest) := MatchArgs(here.value).value;
      Some(("", args, rest))
    else if s == "" then None
    else
      match MatchName(s[1..])
      case None => None
      case Some((name, args, rest)) => Some(([s[0]] + name, args, rest))
  }

  /** The whole expression at the start of `s`. */
  function MatchCall(s: string): Option<(string, string, string)> {
    match After(s, OPEN_CALL)
    case None => None
    case Some(inner) =>
      match After(TrimStart(inner), OPEN_NAME)
      case None => None
      case Some(rest) => MatchName(rest)
  }

  lemma {:induction false} MatchArgsConsumes(s: string)
    ensures MatchArgs(s).Some? ==> |MatchArgs(s).value.1| < |s|
  {
    if CloseArgsHere(s).Some? {
      TrimStartShortens(s[|CLOSE_ARGS|..]);
    } else if s != "" {
      MatchArgsConsumes(s[1..]);
    }
  }

  lemma {:induction false} MatchNameConsumes(s: string)
    ensures MatchName(s).Some? ==> |MatchName(s).value.2| < |s|
  {
    var here := CloseNameHere(s);
    if here.Some? && MatchArgs(here.value).Some? {
      TrimStartShortens(s[|CLOSE_NAME|..]);
      MatchArgsConsumes(here.value);
    } else if s != "" {
      MatchNameConsumes(s[1..]);
    }
  }

  lemma {:induction false} TrimStartShortens(s: string)
    ensures |TrimStart(s)| <= |s|
  {
    if s != "" && IsWhitespace(s[0]) {
      TrimStartShortens(s[1..]);
    }
  }

  lemma {:induction false} MatchCallConsumes(s: string)
    ensures MatchCall(s).Some? ==> |MatchCall(s).value.2| < |s|
  {
    if MatchCall(s).Some? {
      var inner := s[|OPEN_CALL|..];
      TrimStartShortens(inner);
      MatchNameConsumes(TrimStart(inner)[|OPEN_NAME|..]);
    }
  }

  /** `captures_iter`: leftmost matches, one after the other. */
  function Captures(text: string): seq<(string, string)>
    decreases |text|
  {
    if text == "" then []
    else
      MatchCallConsumes(text);
      match MatchCall(text)
      case Some((name, args, rest)) => [(name, args)] + Captures(rest)
      case None => Captures(text[1..])
  }

  function ToCall(json: Codec, capture: (string, string)): ParsedToolCall {
    var arguments := json.parse(Trim(capture.1));
    ParsedToolCall(Trim(capture.0), if arguments.Some? then arguments.value else Obj(map[]), None)
  }

  /** `parse_tool_calls_from_text` */
  function ParseCalls(json: Codec, text: string): seq<ParsedToolCall> {
    var captures := Captures(text);
    seq(|captures|, i requires 0 <= i < |captures| => ToCall(json, captures[i]))
  }

  // ---------------------------------------------------------------------------------------------
  // What the captures of a printed text are.

  /** The text closes the element it is printed into. */
  predicate ClosesName(name: string) {
    exists i :: 0 <= i < |name| && CloseNameHere(name[i..]).Some?
  }

  predicate ClosesArgs(args: string) {
    exists i :: 0 <= i < |args| && CloseArgsHere(args[i..]).Some?
  }

  /** The one '<' of a tag is its first character. */
  predicate IsTag(tag: string) {
    tag != "" && tag[0] == '<' && forall i :: 0 < i < |tag| ==> tag[i] != '<'
  }

  /** A tag does not straddle the end of a text that is followed by another tag. */
  lemma {:induction false} TagDoesNotStraddle(tag: string, x: string, rest: string)
    requires IsTag(tag) && x != "" && rest != "" && rest[0] == '<'
    ensures tag <= x + rest <==> tag <= x
  {
    assert (x + rest)[|x|] == '<';
  }

  lemma {:induction false} TrimStartOfConcat(x: string, rest: string)
    requires rest != "" && !IsWhitespace(rest[0])
    ensures TrimStart(x + rest) == TrimStart(x) + rest
    ensures TrimStart(x) != "" ==> !IsWhitespace(TrimStart(x)[0])
  {
    if x == "" {
      assert x + rest == rest;
    } else if IsWhitespace(x[0]) {
      assert (x + rest)[1..] == x[1..] + rest;
      TrimStartOfConcat(x[1..], rest);
    }
  }

  lemma {:induction false} PrefixesAreComparable(a: string, b: string, s: string)
    requires a <= s && b <= s
    ensures a <= b || b <= a
  {
    assert a == s[..|a|] && b == s[..|b|];
  }

  /** Whether `x` starts with `close`, whitespace and `open` does not depend on what follows it, if
      that starts with `close`. */
  lemma {:induction false} ClosingIsLocal(close: string, open: string, x: string, rest: string)
    requires IsTag(close) && IsTag(open) && !(open <= close) && !(close <= open)
    requires close <= rest && x != ""
    ensures (close <= x + rest && open <= TrimStart((x + rest)[|close|..]))
       <==> (close <= x && open <= TrimStart(x[|close|..]))
  {
    TagDoesNotStraddle(close, x, rest);
    if close <= x {
      var y := x[|close|..];
      assert (x + rest)[|close|..] == y + rest;
      assert rest[0] == close[0];
      TrimStartOfConcat(y, rest);
      if TrimStart(y) == "" {
        assert TrimStart(y) + rest == rest;
        if open <= rest {
          PrefixesAreComparable(open, close, rest);
        }
      } else {
        TagDoesNotStraddle(open, TrimStart(y), rest);
      }
    }
  }

  lemma {:induction false} TagsAreTags()
    ensures IsTag(CLOSE_NAME) && IsTag(OPEN_ARGS) && IsTag(CLOSE_ARGS) && IsTag(CLOSE_CALL) && IsTag(OPEN_NAME)
    ensures !(OPEN_ARGS <= CLOSE_NAME) && !(CLOSE_NAME <= OPEN_ARGS)
    ensures !(CLOSE_CALL <= CLOSE_ARGS) && !(CLOSE_ARGS <= CLOSE_CALL)
  {
    assert OPEN_ARGS[1] != CLOSE_NAME[1];
    assert CLOSE_CALL[2] != CLOSE_ARGS[2];
  }

  /** A closing tag and, on the next line, another tag. */
  lemma {:induction false} TwoTagsHere(close: string, open: string, behind: string)
    requires IsTag(open)
    ensures var s := close + ("\n" + (open + behind));
            close <= s && s[|close|..] == "\n" + (open + behind)
            && After(TrimStart("\n" + (open + behind)), open) == Some(behind)
  {
    var rest := "\n" + (open + behind);
    assert rest[1..] == open + behind;
    assert TrimStart(rest) == TrimStart(open + behind) == open + behind;
    assert (open + behind)[|open|..] == behind;
  }

  lemma {:induction false} OwnEndOfArgs(more: string)
    ensures CloseArgsHere(Tail(more)) == Some("\n" + more)
    ensures CLOSE_ARGS <= Tail(more)
  {
    TagsAreTags();
    TailIsTwoTags(more);
    TwoTagsHere(CLOSE_ARGS, CLOSE_CALL, "\n" + more);
  }

  lemma {:induction false} TailIsTwoTags(more: string)
    ensures Tail(more) == CLOSE_ARGS + ("\n" + (CLOSE_CALL + ("\n" + more)))
  {
  }

  /** The lazy capture takes exactly the printed arguments unless they close themselves, and then it
      takes less. */
  lemma {:induction false} MatchArgsOfPrinted(args: string, more: string)
    ensures MatchArgs(args + Tail(more)).Some?
    ensures MatchArgs(args + Tail(more)) == Some((args, "\n" + more)) <==> !ClosesArgs(args)
    ensures ClosesArgs(args) ==> |MatchArgs(args + Tail(more)).value.0| < |args|
  {
    OwnEndOfArgs(more);
    TagsAreTags();
    var s := args + Tail(more);
    if args == "" {
      assert s == Tail(more);
    } else {
      ClosingIsLocal(CLOSE_ARGS, CLOSE_CALL, args, Tail(more));
      assert CloseArgsHere(s).Some? <==> CloseArgsHere(args).Some?;
      assert args[0..] == args;
      if CloseArgsHere(args).None? {
        assert s[1..] == args[1..] + Tail(more);
        MatchArgsOfPrinted(args[1..], more);
        ClosesArgsTail(args);
        assert [args[0]] + args[1..] == args;
      }
    }
  }

  lemma {:induction false} ClosesArgsTail(args: string)
    requires args != "" && CloseArgsHere(args).None?
    ensures ClosesArgs(args) <==> ClosesArgs(args[1..])
  {
    if ClosesArgs(args) {
      var i :| 0 <= i < |args| && CloseArgsHere(args[i..]).Some?;
      assert args[0..] == args;
      assert args[i..] == args[1..][i - 1..];
    }
    if ClosesArgs(args[1..]) {
      var i :| 0 <= i < |args[1..]| && CloseArgsHere(args[1..][i..]).Some?;
      assert args[1..][i..] == args[i + 1..];
    }
  }

  lemma {:induction false} OwnEndOfName(args: string, more: string)
    ensures CloseNameHere(Middle(args, more)) == Some(args + Tail(more))
    ensures CLOSE_NAME <= Middle(args, more)
  {
    TagsAreTags();
    MiddleIsTwoTags(args, more);
    TwoTagsHere(CLOSE_NAME, OPEN_ARGS, args + Tail(more));
  }

  lemma {:induction false} MiddleIsTwoTags(args: string, more: string)
    ensures Middle(args, more) == CLOSE_NAME + ("\n" + (OPEN_ARGS + (args + Tail(more))))
  {
  }

  /** A name that closes its element does so whatever tag follows it. */
  lemma {:induction false} ClosedNameBefore(name: string, behind: string, z: string)
    requires name != "" && CloseNameHere(name) == Some(z) && CLOSE_NAME <= behind
    ensures CloseNameHere(name + behind) == Some(z + behind)
  {
    TagsAreTags();
    ClosingIsLocal(CLOSE_NAME, OPEN_ARGS, name, behind);
    var y := name[|CLOSE_NAME|..];
    assert (name + behind)[|CLOSE_NAME|..] == y + behind;
    TrimStartOfConcat(y, behind);
    assert (TrimStart(y) + behind)[|OPEN_ARGS|..] == TrimStart(y)[|OPEN_ARGS|..] + behind;
  }

  lemma {:induction false} MiddleEndsInTail(z: string, args: string, more: string)
    ensures z + Middle(args, more) == (z + (CLOSE_NAME + "\n" + OPEN_ARGS + args)) + Tail(more)
  {
  }

  lemma {:induction false} NameClosesHere(s: string, after: string)
    requires CloseNameHere(s) == Some(after) && MatchArgs(after).Some?
    ensures MatchName(s) == Some(("", MatchArgs(after).value.0, MatchArgs(after).value.1))
  {
  }

  lemma {:induction false} NameGoesOn(name: string, behind: string)
    requires name != "" && CloseNameHere(name + behind).None? && MatchName(name[1..] + behind).Some?
    ensures var (tail, args, rest) := MatchName(name[1..] + behind).value;
            MatchName(name + behind) == Some(([name[0]] + tail, args, rest))
  {
    assert (name + behind)[0] == name[0] && (name + behind)[1..] == name[1..] + behind;
  }

  lemma {:induction false} ClosesWhateverFollows(name: string, behind: string)
    requires name != "" && CLOSE_NAME <= behind
    ensures CloseNameHere(name + behind).Some? <==> CloseNameHere(name).Some?
  {
    TagsAreTags();
    ClosingIsLocal(CLOSE_NAME, OPEN_ARGS, name, behind);
  }

  /** The name in front of `behind`, which closes it and the arguments, at whatever place it is closed. */
  lemma {:induction false} MatchNameBefore(name: string, behind: string, after: string)
    requires CLOSE_NAME <= behind && CloseNameHere(behind) == Some(after) && MatchArgs(after).Some?
    requires forall z :: MatchArgs(z + behind).Some?
    ensures MatchName(name + behind).Some?
    ensures !ClosesName(name) ==>
              MatchName(name + behind) == Some((name, MatchArgs(after).value.0, MatchArgs(after).value.1))
    ensures ClosesName(name) ==> |MatchName(name + behind).value.0| < |name|
  {
    if name == "" {
      assert name + behind == behind;
      NameClosesHere(behind, after);
    } else {
      ClosesWhateverFollows(name, behind);
      if CloseNameHere(name).Some? {
        ClosedNameBefore(name, behind, CloseNameHere(name).value);
        NameClosesHere(name + behind, CloseNameHere(name).value + behind);
        assert name[0..] == name;
      } else {
        MatchNameBefore(name[1..], behind, after);
        NameGoesOn(name, behind);
        ClosesNameTail(name);
        assert [name[0]] + name[1..] == name;
      }
    }
  }

  lemma {:induction false} MatchNameOfPrinted(name: string, args: string, more: string)
    ensures MatchName(name + Middle(args, more)).Some?
    ensures !ClosesName(name) ==>
              && MatchName(name + Middle(args, more)).value.0 == name
              && MatchArgs(args + Tail(more))
                 == Some((MatchName(name + Middle(args, more)).value.1, MatchName(name + Middle(args, more)).value.2))
    ensures ClosesName(name) ==> |MatchName(name + Middle(args, more)).value.0| < |name|
  {
    OwnEndOfName(args, more);
    MatchArgsOfPrinted(args, more);
    forall z
      ensures MatchArgs(z + Middle(args, more)).Some?
    {
      MiddleEndsInTail(z, args, more);
      MatchArgsOfPrinted(z + (CLOSE_NAME + "\n" + OPEN_ARGS + args), more);
    }
    MatchNameBefore(name, Middle(args, more), args + Tail(more));
  }

  lemma {:induction false} ClosesNameTail(name: string)
    requires name != "" && CloseNameHere(name).None?
    ensures ClosesName(name) <==> ClosesName(name[1..])
  {
    if ClosesName(name) {
      var i :| 0 <= i < |name| && CloseNameHere(name[i..]).Some?;
      assert name[0..] == name;
      assert name[i..] == name[1..][i - 1..];
    }
    if ClosesName(name[1..]) {
      var i :| 0 <= i < |name[1..]| && CloseNameHere(name[1..][i..]).Some?;
      assert name[1..][i..] == name[i + 1..];
    }
  }

  lemma {:induction false} CallIsTwoTags(name: string, args: string, more: string)
    ensures FormatCall(name, args, more) == OPEN_CALL + ("\n" + (OPEN_NAME + (name + Middle(args, more))))
  {
    assert OPEN_CALL + "\n" + OPEN_NAME + name + Middle(args, more)
        == OPEN_CALL + ("\n" + (OPEN_NAME + (name + Middle(args, more))));
  }

  lemma {:induction false} MatchCallOfPrinted(name: string, args: string, more: string)
    ensures MatchCall(FormatCall(name, args, more)) == MatchName(name + Middle(args, more))
  {
    TagsAreTags();
    CallIsTwoTags(name, args, more);
    TwoTagsHere(OPEN_CALL, OPEN_NAME, name + Middle(args, more));
  }

  function Printed(json: Codec, call: ParsedToolCall): (string, string) {
    (call.name, json.render(call.arguments))
  }

  function AllPrinted(json: Codec, calls: seq<ParsedToolCall>): seq<(string, string)> {
    seq(|calls|, i requires 0 <= i < |calls| => Printed(json, calls[i]))
  }

  predicate IsClosed(json: Codec, call: ParsedToolCall) {
    ClosesName(call.name) || ClosesArgs(json.render(call.arguments))
  }

  lemma {:induction false} LineFeedIsSkipped(text: string)
    ensures Captures("\n" + text) == Captures(text)
  {
    assert ("\n" + text)[1..] == text;
    assert ("\n" + text)[0] != OPEN_CALL[0];
  }

  /** Whatever the calls: the captures in the printed text are the printed names and arguments if and
      only if no name contains `</name>`, whitespace, `<arguments>` and no printed arguments contain
      `</arguments>`, whitespace, `</tool_call>`. */
  lemma {:induction false} PrintedCallsAreCapturedIff(json: Codec, calls: seq<ParsedToolCall>)
    ensures Captures(FormatCalls(json, calls)) == AllPrinted(json, calls)
       <==> forall i :: 0 <= i < |calls| ==> !IsClosed(json, calls[i])
    decreases |calls|
  {
    if calls != [] {
      var name, args := calls[0].name, json.render(calls[0].arguments);
      var more := FormatCalls(json, calls[1..]);
      var text := FormatCall(name, args, more);
      PrintedCallsAreCapturedIff(json, calls[1..]);
      MatchCallOfPrinted(name, args, more);
      MatchNameOfPrinted(name, args, more);
      MatchArgsOfPrinted(args, more);
      AllPrintedFirst(json, calls);
      var (n, a, rest) := MatchCall(text).value;
      assert Captures(text) == [(n, a)] + Captures(rest);
      if IsClosed(json, calls[0]) {
        assert Captures(text)[0] != AllPrinted(json, calls)[0];
      } else {
        assert (n, a, rest) == (name, args, "\n" + more);
        LineFeedIsSkipped(more);
        assert Captures(text)[1..] == Captures(more);
        assert AllPrinted(json, calls)[1..] == AllPrinted(json, calls[1..]);
        assert forall i :: 0 < i < |calls| ==> calls[i] == calls[1..][i - 1];
        assert forall i :: 0 <= i < |calls[1..]| ==> calls[1..][i] == calls[i + 1];
      }
    }
  }

  lemma {:induction false} AllPrintedFirst(json: Codec, calls: seq<ParsedToolCall>)
    requires calls != []
    ensures AllPrinted(json, calls) == [Printed(json, calls[0])] + AllPrinted(json, calls[1..])
  {
  }

  /** For a JSON printer and parser that round-trip: printing calls with trimmed names and finding
      them again loses nothing but the ids. */
  lemma {:induction false} RoundTrip(json: Codec, calls: seq<ParsedToolCall>)
    requires forall i :: 0 <= i < |calls| ==>
               && !IsClosed(json, calls[i]) && Trim(calls[i].name) == calls[i].name
               && json.parse(Trim(json.render(calls[i].arguments))) == Some(calls[i].arguments)
    ensures ParseCalls(json, FormatCalls(json, calls))
        == seq(|calls|, i requires 0 <= i < |calls| => calls[i].(toolCallId := None))
  {
    PrintedCallsAreCapturedIff(json, calls);
  }
}
