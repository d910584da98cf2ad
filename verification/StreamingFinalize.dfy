/** The end of a streamed reply: what the finalizer's verdict means for what the channel shows. */
module StreamingFinalize {
  import opened Options
  import opened StreamingDisplay
  import opened StreamingDisplayRuns

  // ---------------------------------------------------------------------------------------------
  // What each verdict means in the state in which it is given.

  /** Success means that the channel shows the final text if and only if the frozen messages are a
      prefix of it and no live message is left over beyond it. */
  lemma {:induction false} ReturnOkShowsFinalTextIff(w: World)
    requires Inv(w) && Poll(w.display, w.display.latestContent) == ReturnOk
    ensures var d := w.display;
            && w.tasks == []
            && d.committedPrefixChars <= |d.latestContent|
            && (TextOf(w.remote) == d.latestContent <==>
                  && TextOf(Frozen(w)) == d.latestContent[..d.committedPrefixChars]
                  && (d.committedPrefixChars < |d.latestContent| || LiveText(w) == ""))
  {
    var d := w.display;
    FrozenThenLive(w);
    OkMeansNothingIsMissing(d);
    PartsAgreeIff(TextOf(Frozen(w)), if d.displayedSegment.Some? then d.displayedSegment.value
        else "", d.latestContent);
  }

  /** The text of the live message: the one it shows, or will show when the running operation succeeds. */
  function LiveText(w: World): string {
    if w.tasks != [] then w.tasks[0].content
    else if w.display.displayedSegment.Some? then w.display.displayedSegment.value
    else ""
  }

  lemma {:induction false} OkMeansNothingIsMissing(d: Display)
    requires Poll(d, d.latestContent) == ReturnOk
    ensures !d.sendInFlight && !d.editInFlight && d.committedPrefixChars <= |d.latestContent|
    ensures d.committedPrefixChars < |d.latestContent| ==>
              d.displayedSegment == Some(d.latestContent[d.committedPrefixChars..])
  {
    var n := d.committedPrefixChars;
    if n < |d.latestContent| {
      assert d.latestContent[n..|d.latestContent|] == d.latestContent[n..];
    }
  }

  lemma {:induction false} PartsAgreeIff(head: string, tail: string, text: string)
    requires |head| <= |text|
    ensures head + tail == text <==> head == text[..|head|] && tail == text[|head|..]
  {
    if head + tail == text {
      assert (head + tail)[..|head|] == head && (head + tail)[|head|..] == tail;
    }
    assert text == text[..|head|] + text[|head|..];
  }

  /** The plain fallback runs only when no streamed message carries any text, so nothing is shown
      twice; with a limit of at least one, only when no message was accepted at all. */
  lemma {:induction false} PlainSendOnlyWhenNothingIsShown(w: World, content: string)
    requires Inv(w) && Poll(w.display, content) == PlainSend
    ensures w.tasks == [] && TextOf(w.remote) == ""
    ensures w.display.channelLimit != Some(0) ==> w.remote == []
  {
    assert Frozen(w) == w.remote;
    if w.remote != [] {
      assert w.remote[|w.remote| - 1] in Frozen(w);
    }
  }

  /** An error is returned only when part of the text is already on the channel or an edit failed. */
  lemma {:induction false} ReturnErrOnlyAfterFailure(w: World, content: string)
    requires Inv(w) && Poll(w.display, content).ReturnErr?
    ensures w.display.terminalFailure && w.tasks == [] && w.remote != []
  {
  }

  /** Success after a failure: nothing was to be shown, and nothing is. */
  lemma {:induction false} ReturnOkAfterFailure(w: World, content: string)
    requires Inv(w) && Poll(w.display, content) == ReturnOk && w.display.terminalFailure
    ensures content == "" && TextOf(w.remote) == ""
  {
    FrozenThenLive(w);
  }

  // ---------------------------------------------------------------------------------------------
  // What a step of the other tasks does to the text that is or will be shown.

  /** From `w` to `w'` with the same final text: whether the frozen messages are a prefix of it is
      decided at `w`, and once it is committed in full the live text is decided as well. */
  predicate LeadsTo(w: World, w': World) {
    var d, d' := w.display, w'.display;
    && Inv(w')
    && d'.latestContent == d.latestContent
    && (d.terminalFailure ==> d'.terminalFailure)
    && (TextOf(Frozen(w')) <= d.latestContent <==> TextOf(Frozen(w)) <= d.latestContent)
    && if d.committedPrefixChars < |d.latestContent| then d'.committedPrefixChars < |d.latestContent|
       else d'.committedPrefixChars == d.committedPrefixChars && (LiveText(w') == LiveText(w) || d'.terminalFailure)
  }

  lemma {:induction false} PrefixOfSlice(head: string, text: string, end: nat)
    requires |head| <= end <= |text|
    ensures head + text[|head|..end] <= text <==> head <= text
  {
    var longer := head + text[|head|..end];
    assert longer[..|head|] == head;
    if head <= text {
      assert longer == text[..end];
    }
  }

  lemma {:induction false} KickOnCommittedText(w: World, editDue: bool)
    requires w.display.committedPrefixChars >= |w.display.latestContent|
    ensures Step(w, Kick(editDue)) == w
  {
  }

  lemma {:induction false} KickKeepsFailure(w: World, editDue: bool)
    requires Inv(w)
    ensures Step(w, Kick(editDue)).display.terminalFailure == w.display.terminalFailure
  {
    KickCases(w, editDue);
    if TryRollover(w.display).1 {
      RolloverShape(w.display);
    }
  }

  lemma {:induction false} KickLeadsOn(w: World, editDue: bool)
    requires Inv(w)
    ensures LeadsTo(w, Step(w, Kick(editDue)))
  {
    StepKeepsInv(w, Kick(editDue));
    KickFreezes(w, editDue);
    KickKeepsFailure(w, editDue);
    var a, b := w.display.committedPrefixChars, Step(w, Kick(editDue)).display.committedPrefixChars;
    if a >= |w.display.latestContent| {
      KickOnCommittedText(w, editDue);
    } else if b > a {
      PrefixOfSlice(TextOf(Frozen(w)), w.display.latestContent, b);
    } else {
      assert TextOf(Frozen(w)) + "" == TextOf(Frozen(w));
    }
  }

  lemma {:induction false} CompletionLeadsOn(w: World, e: Event)
    requires Inv(w) && Enabled(w, e) && (e.SendDone? || e.EditDone?)
    ensures LeadsTo(w, Step(w, e))
  {
    StepKeepsInv(w, e);
    CompletionKeepsFrozen(w, e);
  }

  lemma {:induction false} RunLeadsOn(w: World, events: seq<Event>)
    requires Inv(w) && OnlyTaskEvents(events)
    ensures LeadsTo(w, Run(w, events))
    decreases |events|
  {
    if events != [] {
      TaskLeadsOn(w, events[0]);
      RunLeadsOn(Step(w, events[0]), events[1..]);
      LeadsToIsTransitive(w, Step(w, events[0]), Run(w, events));
    } else {
      LeadsToItself(w);
    }
  }

  lemma {:induction false} TaskLeadsOn(w: World, e: Event)
    requires Inv(w) && IsTaskEvent(e)
    ensures LeadsTo(w, Step(w, e))
  {
    if e.Kick? {
      KickLeadsOn(w, e.editDue);
    } else if Enabled(w, e) {
      CompletionLeadsOn(w, e);
    } else {
      LeadsToItself(w);
    }
  }

  lemma {:induction false} LeadsToItself(w: World)
    requires Inv(w)
    ensures LeadsTo(w, w)
  {
  }

  lemma {:induction false} LeadsToIsTransitive(a: World, b: World, c: World)
    requires LeadsTo(a, b) && LeadsTo(b, c)
    ensures LeadsTo(a, c)
  {
  }

  lemma {:induction false} RoundLeadsOn(w: World, round: Round)
    requires Inv(w) && OnlyTasksIn(round)
    ensures LeadsTo(w, RunRound(w, round))
  {
    RunLeadsOn(w, round.before);
    KickLeadsOn(Run(w, round.before), false);
    LeadsToIsTransitive(w, Run(w, round.before), KickIn(w, round));
    RunLeadsOn(KickIn(w, round), round.after);
    LeadsToIsTransitive(w, KickIn(w, round), RunRound(w, round));
  }

  lemma {:induction false} LoopLeadsOn(w: World, content: string, schedule: seq<Round>)
    requires Inv(w) && OnlyTaskRounds(schedule)
    ensures var (w', verdict) := FinalizeLoop(w, content, schedule);
            LeadsTo(w, w') && verdict == Poll(w'.display, content)
    decreases |schedule|
  {
    if Poll(w.display, content) == Continue && schedule != [] {
      var next := RunRound(w, schedule[0]);
      RoundLeadsOn(w, schedule[0]);
      LoopLeadsOn(next, content, schedule[1..]);
      LeadsToIsTransitive(w, next, FinalizeLoop(w, content, schedule).0);
    } else {
      LeadsToItself(w);
    }
  }

  lemma {:induction false} AfterBeginFinalize(w: World, content: string)
    requires Inv(w)
    ensures var w' := Step(w, BeginFinalize(content));
            && Inv(w') && w' == w.(display := w.display.(latestContent := content, finalized := true))
            && Frozen(w') == Frozen(w) && LiveText(w') == LiveText(w)
  {
    StepKeepsInv(w, BeginFinalize(content));
  }

  lemma {:induction false} FinalizeLeadsOn(w: World, content: string, start: Round, schedule: seq<Round>)
    requires Inv(w) && OnlyTasksIn(start) && OnlyTaskRounds(schedule)
    ensures var (w', verdict) := Finalize(w, content, start, schedule);
            LeadsTo(Step(w, BeginFinalize(content)), w') && verdict == Poll(w'.display, content)
  {
    var w0 := Step(w, BeginFinalize(content));
    AfterBeginFinalize(w, content);
    RoundLeadsOn(w0, start);
    LoopLeadsOn(RunRound(w0, start), content, schedule);
    LeadsToIsTransitive(w0, RunRound(w0, start), Finalize(w, content, start, schedule).0);
  }

  // ---------------------------------------------------------------------------------------------
  // Main results, stated at the call of the finalizer.

  /** Whether the final text would follow on what the channel already shows: the frozen messages are
      a prefix of it, and if they are all of it, no live message has text of its own. */
  predicate FollowsOn(w: World, content: string) {
    && TextOf(Frozen(w)) <= content
    && (w.display.committedPrefixChars < |content| || LiveText(w) == "")
  }

  /** A reply that is finalized with success is shown if and only if it followed on what the channel
      showed when the finalizer was called; whatever the text did before, and however other tasks
      interleave with the finalizer. Success in spite of a failure means that there was nothing to
      show. The plain fallback starts from a channel without text. */
  lemma {:induction false} FinalizedTextIsShownIff(w: World, content: string, start: Round, schedule: seq<Round>)
    requires Inv(w) && OnlyTasksIn(start) && OnlyTaskRounds(schedule)
    ensures var (w', verdict) := Finalize(w, content, start, schedule);
            && Inv(w')
            && (verdict == ReturnOk ==>
                  if w'.display.terminalFailure then TextOf(w'.remote) == content == ""
                  else (TextOf(w'.remote) == content <==> FollowsOn(w, content)))
            && (verdict == PlainSend ==> TextOf(w'.remote) == "")
  {
    FinalizeLeadsOn(w, content, start, schedule);
    AfterBeginFinalize(w, content);
    VerdictMeans(Step(w, BeginFinalize(content)), Finalize(w, content, start, schedule).0, content);
  }

  lemma {:induction false} VerdictMeans(w: World, w': World, content: string)
    requires LeadsTo(w, w') && w.display.latestContent == content
    ensures Poll(w'.display, content) == ReturnOk ==>
              if w'.display.terminalFailure then TextOf(w'.remote) == content == ""
              else (TextOf(w'.remote) == content <==> FollowsOn(w, content))
    ensures Poll(w'.display, content) == PlainSend ==> TextOf(w'.remote) == ""
  {
    var verdict := Poll(w'.display, content);
    if verdict == ReturnOk {
      ReturnOkShowsFinalTextIff(w');
      if w'.display.terminalFailure {
        ReturnOkAfterFailure(w', content);
      }
    } else if verdict == PlainSend {
      PlainSendOnlyWhenNothingIsShown(w', content);
    }
  }

  /** From an empty display, through any updates that keep the committed characters, restarts among
      them: a reply finalized with success is shown if and only if it keeps the committed characters
      as well and is longer than them, or no live message has text of its own. */
  lemma {:induction false} FinalTextIsShown(limit: Option<nat>, events: seq<Event>, content: string, start: Round,
      schedule: seq<Round>)
    requires UpdatesKeepCommittedPrefix(InitialWorld(limit), events)
    requires OnlyTasksIn(start) && OnlyTaskRounds(schedule)
    ensures var w := Run(InitialWorld(limit), events);
            var (w', verdict) := Finalize(w, content, start, schedule);
            && (verdict == ReturnOk ==>
                  if w'.display.terminalFailure then TextOf(w'.remote) == content == ""
                  else (TextOf(w'.remote) == content <==>
                          && KeepsCommittedPrefix(w.display, content)
                          && (w.display.committedPrefixChars < |content| || LiveText(w) == "")))
            && (verdict == PlainSend ==> TextOf(w'.remote) == "")
  {
    var w := Run(InitialWorld(limit), events);
    RunKeepsInv(InitialWorld(limit), events);
    FrozenMessagesShowCommittedPrefix(InitialWorld(limit), events);
    FollowsOnIff(w, content);
    FinalizedTextIsShownIff(w, content, start, schedule);
  }

  lemma {:induction false} FollowsOnIff(w: World, content: string)
    requires CommittedPrefixIsShown(w)
    ensures FollowsOn(w, content) <==> && KeepsCommittedPrefix(w.display, content)
                                       && (w.display.committedPrefixChars < |content| || LiveText(w) == "")
  {
  }

  /** In particular, while the text only grows, success always means that it is shown. */
  lemma {:induction false} GrowingTextIsShown(limit: Option<nat>, events: seq<Event>, content: string, start: Round,
      schedule: seq<Round>)
    requires TextOnlyGrows(InitialWorld(limit), events)
    requires Run(InitialWorld(limit), events).display.latestContent <= content
    requires OnlyTasksIn(start) && OnlyTaskRounds(schedule)
    ensures var (w', verdict) := Finalize(Run(InitialWorld(limit), events), content, start, schedule);
            verdict == ReturnOk ==> TextOf(w'.remote) == content
  {
    var w := Run(InitialWorld(limit), events);
    RunKeepsInv(InitialWorld(limit), events);
    ReaderSeesAPrefixOfTheText(InitialWorld(limit), events);
    GrownTextFollowsOn(w, content);
    FinalizedTextIsShownIff(w, content, start, schedule);
  }

  lemma {:induction false} GrownTextFollowsOn(w: World, content: string)
    requires Inv(w) && LiveTextIsCurrent(w) && w.display.latestContent <= content
    ensures FollowsOn(w, content)
  {
  }

  // ---------------------------------------------------------------------------------------------
  // Nothing happens after the finalizer has returned.

  /** A kick has had its chance to start a first send. */
  predicate HasTried(w: World) {
    var d := w.display;
    d.initialSendAttempted || d.latestContent == "" || Active(d).None? || d.terminalFailure
  }

  lemma {:induction false} KickTries(w: World, editDue: bool)
    requires Inv(w)
    ensures HasTried(Step(w, Kick(editDue)))
  {
    KickCases(w, editDue);
  }

  lemma {:induction false} RunKeepsTried(w: World, events: seq<Event>)
    requires Inv(w) && HasTried(w) && OnlyTaskEvents(events)
    ensures HasTried(Run(w, events))
    decreases |events|
  {
    if events != [] {
      var e := events[0];
      StepKeepsInv(w, e);
      if e.Kick? {
        KickTries(w, e.editDue);
      } else if Enabled(w, e) {
        CompletionKeepsTried(w, e);
      }
      RunKeepsTried(Step(w, e), events[1..]);
    }
  }

  lemma {:induction false} CompletionKeepsTried(w: World, e: Event)
    requires HasTried(w) && Enabled(w, e) && (e.SendDone? || e.EditDone?)
    ensures HasTried(Step(w, e))
  {
    CompletionTouches(w, e);
  }

  lemma {:induction false} CompletionTouches(w: World, e: Event)
    requires Enabled(w, e) && (e.SendDone? || e.EditDone?)
    ensures var d, d' := w.display, Step(w, e).display;
            && d'.latestContent == d.latestContent && d'.committedPrefixChars == d.committedPrefixChars
            && d'.channelLimit == d.channelLimit && d'.initialSendAttempted == d.initialSendAttempted
            && (d.terminalFailure ==> d'.terminalFailure)
  {
  }

  lemma {:induction false} RoundTries(w: World, round: Round)
    requires Inv(w) && OnlyTasksIn(round)
    ensures Inv(RunRound(w, round)) && HasTried(RunRound(w, round))
  {
    RunKeepsInv(w, round.before);
    KickTries(Run(w, round.before), false);
    StepKeepsInv(Run(w, round.before), Kick(false));
    RunKeepsTried(KickIn(w, round), round.after);
    RunKeepsInv(KickIn(w, round), round.after);
  }

  lemma {:induction false} LoopHasTried(w: World, content: string, schedule: seq<Round>)
    requires Inv(w) && HasTried(w) && OnlyTaskRounds(schedule)
    ensures HasTried(FinalizeLoop(w, content, schedule).0)
    decreases |schedule|
  {
    if Poll(w.display, content) == Continue && schedule != [] {
      RoundTries(w, schedule[0]);
      LoopHasTried(RunRound(w, schedule[0]), content, schedule[1..]);
    }
  }

  lemma {:induction false} KickAfterReturn(w: World, editDue: bool)
    requires Inv(w) && HasTried(w) && Poll(w.display, w.display.latestContent) != Continue
    ensures Step(w, Kick(editDue)) == w
  {
    KickCases(w, editDue);
  }

  lemma {:induction false} QuietAfterReturn(w: World, events: seq<Event>)
    requires Inv(w) && HasTried(w) && Poll(w.display, w.display.latestContent) != Continue && OnlyTaskEvents(events)
    ensures Run(w, events) == w
    decreases |events|
  {
    if events != [] {
      if events[0].Kick? {
        KickAfterReturn(w, events[0].editDue);
      }
      QuietAfterReturn(w, events[1..]);
    }
  }

  /** In the state in which the finalizer returns nothing is running, and late kicks start nothing. */
  lemma {:induction false} NothingHappensAfterReturn(w: World, content: string, start: Round, schedule: seq<Round>,
      events: seq<Event>)
    requires Inv(w) && OnlyTasksIn(start) && OnlyTaskRounds(schedule) && OnlyTaskEvents(events)
    requires Finalize(w, content, start, schedule).1 != Continue
    ensures var w' := Finalize(w, content, start, schedule).0; Run(w', events) == w'
  {
    var w0 := Step(w, BeginFinalize(content));
    AfterBeginFinalize(w, content);
    FinalizeLeadsOn(w, content, start, schedule);
    RoundTries(w0, start);
    LoopHasTried(RunRound(w0, start), content, schedule);
    QuietAfterReturn(Finalize(w, content, start, schedule).0, events);
  }
}
