/** Tool calls inside other text, as a model writes them: prose around them, and any white space between
    the tags. */
module XmlProse {
  import opened Options
  import opened JsonValues
  import opened Text
  import opened TextLaws
  import opened XmlCalls

  /** Some prose and a call behind it, with the white space between its tags. */
  datatype Written = Written(prose: string, name: string, args: string, gaps: (string, string, string))

  function CallText(w: Written): string {
    ("<tool_call>" + w.gaps.0 + "<name>" + w.name) + ("</name>" + w.gaps.1 + "<arguments>" + w.args)
    + ("</arguments>" + w.gaps.2 + "</tool_call>")
  }

  function WrittenText(calls: seq<Written>, last: string): string {
    if calls == [] then last else calls[0].prose + CallText(calls[0]) + WrittenText(calls[1..], last)
  }

  /** No call begins in the prose. */
  predicate IsProse(text: string) {
    forall i :: 0 <= i <= |text| ==> !("<tool_call>" <= text[i..])
  }

  predicate IsRight(w: Written) {
    && IsProse(w.prose) && IsBlank(w.gaps.0) && IsBlank(w.gaps.1) && IsBlank(w.gaps.2)
    && !ClosesName(w.name) && !ClosesArgs(w.args)
  }

  predicate AreRight(calls: seq<Written>) {
    forall i :: 0 <= i < |calls| ==> IsRight(calls[i])
  }

  function CapturesOf(calls: seq<Written>): seq<(string, string)> {
    seq(|calls|, i requires 0 <= i < |calls| => (calls[i].name, calls[i].args))
  }

  /** A closing tag, white space, and the next tag. */
  lemma {:induction false} TagAfterGap(close: string, gap: string, open: string, behind: string)
    requires IsTag(open) && IsBlank(gap)
    ensures var s := close + (gap + (open + behind));
            close <= s && s[|close|..] == gap + (open + behind)
            && After(TrimStart(gap + (open + behind)), open) == Some(behind)
  {
    GapIsDropped(gap, open + behind);
    assert (open + behind)[|open|..] == behind;
  }

  lemma {:induction false} ArgsAreTaken(args: string, rest: string, more: string)
    requires CLOSE_ARGS <= rest && CloseArgsHere(rest) == Some(more) && !ClosesArgs(args)
    ensures MatchArgs(args + rest) == Some((args, more))
  {
    if args == "" {
      assert args + rest == rest;
    } else {
      ArgsGoOn(args, rest);
      ArgsAreTaken(args[1..], rest, more);
      OneMoreIsTaken(args, rest, more);
    }
  }

  lemma {:induction false} OneMoreIsTaken(args: string, rest: string, more: string)
    requires args != "" && CloseArgsHere(args + rest).None? && MatchArgs(args[1..] + rest) == Some((args[1..], more))
    ensures MatchArgs(args + rest) == Some((args, more))
  {
    assert (args + rest)[0] == args[0] && (args + rest)[1..] == args[1..] + rest;
    assert [args[0]] + args[1..] == args;
  }

  lemma {:induction false} ArgsGoOn(args: string, rest: string)
    requires args != "" && CLOSE_ARGS <= rest && !ClosesArgs(args)
    ensures CloseArgsHere(args + rest).None? && !ClosesArgs(args[1..])
  {
    TagsAreTags();
    ClosingIsLocal(CLOSE_ARGS, CLOSE_CALL, args, rest);
    assert args[0..] == args;
    assert CloseArgsHere(args).None?;
    ClosesArgsTail(args);
  }

  lemma {:induction false} NameIsTaken(name: string, rest: string, after: string)
    requires CLOSE_NAME <= rest && CloseNameHere(rest) == Some(after) && MatchArgs(after).Some? && !ClosesName(name)
    ensures MatchName(name + rest) == Some((name, MatchArgs(after).value.0, MatchArgs(after).value.1))
  {
    if name == "" {
      assert name + rest == rest;
      NameClosesHere(rest, after);
    } else {
      ClosesWhateverFollows(name, rest);
      assert name[0..] == name;
      assert CloseNameHere(name).None?;
      ClosesNameTail(name);
      NameIsTaken(name[1..], rest, after);
      NameGoesOn(name, rest);
      assert [name[0]] + name[1..] == name;
    }
  }

  function ArgsEnd(w: Written, more: string): string {
    CLOSE_ARGS + (w.gaps.2 + (CLOSE_CALL + more))
  }

  function NameEnd(w: Written, more: string): string {
    CLOSE_NAME + (w.gaps.1 + (OPEN_ARGS + (w.args + ArgsEnd(w, more))))
  }

  lemma {:induction false} CallTextIsTags(w: Written, more: string)
    ensures CallText(w) + more == OPEN_CALL + (w.gaps.0 + (OPEN_NAME + (w.name + NameEnd(w, more))))
  {
    FourAndMore(OPEN_CALL, w.gaps.0, OPEN_NAME, w.name, NameEnd(w, more));
    FourAndMore(CLOSE_NAME, w.gaps.1, OPEN_ARGS, w.args, ArgsEnd(w, more));
    FourAndMore(CLOSE_ARGS, w.gaps.2, CLOSE_CALL, "", more);
    assert CLOSE_CALL + "" == CLOSE_CALL && "" + more == more;
    assert CLOSE_ARGS + w.gaps.2 + CLOSE_CALL + "" == CLOSE_ARGS + w.gaps.2 + CLOSE_CALL;
    ThreeAndMore(OPEN_CALL + w.gaps.0 + OPEN_NAME + w.name, CLOSE_NAME + w.gaps.1 + OPEN_ARGS + w.args,
                 CLOSE_ARGS + w.gaps.2 + CLOSE_CALL, more);
  }

  lemma {:induction false} FourAndMore(a: string, b: string, c: string, d: string, more: string)
    ensures (a + b + c + d) + more == a + (b + (c + (d + more)))
  {
  }

  lemma {:induction false} ThreeAndMore(a: string, b: string, c: string, more: string)
    ensures a + b + c + more == a + (b + (c + more))
  {
  }

  /** The call is matched with its name and its arguments, and nothing behind it. */
  lemma {:induction false} CallIsMatched(w: Written, more: string)
    requires IsRight(w)
    ensures MatchCall(CallText(w) + more) == Some((w.name, w.args, more))
  {
    TagsAreTags();
    CallTextIsTags(w, more);
    TagAfterGap(CLOSE_ARGS, w.gaps.2, CLOSE_CALL, more);
    ArgsAreTaken(w.args, ArgsEnd(w, more), more);
    TagAfterGap(CLOSE_NAME, w.gaps.1, OPEN_ARGS, w.args + ArgsEnd(w, more));
    NameIsTaken(w.name, NameEnd(w, more), w.args + ArgsEnd(w, more));
    TagAfterGap(OPEN_CALL, w.gaps.0, OPEN_NAME, w.name + NameEnd(w, more));
  }

  lemma {:induction false} ProseIsSkipped(prose: string, text: string)
    requires IsProse(prose) && (text == "" || OPEN_CALL <= text)
    ensures Captures(prose + text) == Captures(text)
  {
    if prose == "" {
      assert prose + text == text;
    } else {
      var s := prose + text;
      assert prose[0..] == prose;
      NoCallBegins(prose, text);
      assert MatchCall(s).None?;
      assert s[1..] == prose[1..] + text;
      assert forall i :: 0 <= i <= |prose[1..]| ==> prose[1..][i..] == prose[i + 1..];
      ProseIsSkipped(prose[1..], text);
    }
  }

  lemma {:induction false} NoCallBegins(prose: string, text: string)
    requires prose != "" && !(OPEN_CALL <= prose) && (text == "" || OPEN_CALL <= text)
    ensures !(OPEN_CALL <= prose + text)
  {
    assert IsTag(OPEN_CALL);
    if text == "" {
      assert prose + text == prose;
    } else {
      assert text[0] == OPEN_CALL[0];
      TagDoesNotStraddle(OPEN_CALL, prose, text);
    }
  }

  lemma {:induction false} CallIsCaptured(text: string, name: string, args: string, more: string)
    requires text != "" && MatchCall(text) == Some((name, args, more))
    ensures Captures(text) == [(name, args)] + Captures(more)
  {
    MatchCallConsumes(text);
  }

  lemma {:induction false} ProseAtTheEnd(last: string)
    requires IsProse(last)
    ensures Captures(last) == []
  {
    ProseIsSkipped(last, "");
    assert last + "" == last;
  }

  lemma {:induction false} FirstCallIsCaptured(w: Written, more: string)
    requires IsRight(w)
    ensures Captures(w.prose + (CallText(w) + more)) == [(w.name, w.args)] + Captures(more)
  {
    CallIsMatched(w, more);
    CallTextIsTags(w, more);
    ProseIsSkipped(w.prose, CallText(w) + more);
    CallIsCaptured(CallText(w) + more, w.name, w.args, more);
  }

  lemma {:induction false} WrittenTextOfMore(calls: seq<Written>, last: string)
    requires calls != []
    ensures WrittenText(calls, last) == calls[0].prose + (CallText(calls[0]) + WrittenText(calls[1..], last))
  {
    Associate(calls[0].prose, CallText(calls[0]), WrittenText(calls[1..], last));
  }

  lemma {:induction false} Associate(a: string, b: string, c: string)
    ensures a + b + c == a + (b + c)
  {
  }

  /** Whatever prose stands around the calls and whatever white space between their tags: exactly the calls
      are found, in order. */
  lemma {:induction false} WrittenCallsAreCaptured(calls: seq<Written>, last: string)
    requires AreRight(calls) && IsProse(last)
    ensures Captures(WrittenText(calls, last)) == CapturesOf(calls)
  {
    if calls == [] {
      ProseAtTheEnd(last);
    } else {
      var w, more := calls[0], WrittenText(calls[1..], last);
      FirstCallIsCaptured(w, more);
      WrittenCallsAreCaptured(calls[1..], last);
      WrittenTextOfMore(calls, last);
      assert CapturesOf(calls) == [(w.name, w.args)] + CapturesOf(calls[1..]);
    }
  }

  /** Each such call is one with its trimmed name and with the value of its arguments, or with an empty object
      if they are no JSON, and without an id. */
  lemma {:induction false} WrittenCallsAreParsed(json: Codec, calls: seq<Written>, last: string)
    requires AreRight(calls) && IsProse(last)
    ensures var parsed := ParseCalls(json, WrittenText(calls, last));
            && |parsed| == |calls|
            && forall i, before, name, after ::
                 0 <= i < |calls| && IsBlank(before) && IsBlank(after) && IsTrimmed(name)
                 && calls[i].name == before + name + after ==>
                   && parsed[i].name == name && parsed[i].toolCallId == None
    ensures forall i, before, args, after ::
              0 <= i < |calls| && IsBlank(before) && IsBlank(after) && IsTrimmed(args)
              && calls[i].args == before + args + after ==>
                ParseCalls(json, WrittenText(calls, last))[i].arguments
                == if json.parse(args).Some? then json.parse(args).value else Obj(map[])
  {
    WrittenCallsAreCaptured(calls, last);
    forall i, before, name, after |
        0 <= i < |calls| && IsBlank(before) && IsBlank(after) && IsTrimmed(name)
        && calls[i].name == before + name + after
      ensures ParseCalls(json, WrittenText(calls, last))[i].name == name
    {
      TrimOf(before, name, after);
    }
    forall i, before, args, after |
        0 <= i < |calls| && IsBlank(before) && IsBlank(after) && IsTrimmed(args)
        && calls[i].args == before + args + after
      ensures Trim(calls[i].args) == args
    {
      TrimOf(before, args, after);
    }
  }
}
