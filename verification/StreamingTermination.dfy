/** When the finalizer returns: an exact count of the operations that are still to come. */
module StreamingTermination {
  import opened Options
  import opened StreamingSegments
  import opened StreamingDisplay
  import opened StreamingDisplayRuns
  import opened StreamingFinalize

  function Segments(chars: nat, limit: Option<nat>): nat {
    if chars == 0 || limit == Some(0) then 0
    else 1 + Segments(chars - (if limit.Some? then Min(limit.value, chars) else chars), limit)
  }

  /** The live message shows, or the running operation will make it show, the given text. */
  predicate IsCurrent(w: World, text: string) {
    if w.tasks != [] then w.tasks[0].content == text else w.display.displayedSegment == Some(text)
  }

  /** Sends and edits not yet started: one for each remaining segment, less one when the live
      message is up to date. */
  function OpsLeft(w: World): int {
    match Active(w.display)
    case None => 0
    case Some(segment) =>
      Segments(|w.display.latestContent| - w.display.committedPrefixChars, w.display.channelLimit)
      - if IsCurrent(w, segment.content) then 1 else 0
  }

  function Remaining(w: World): int {
    OpsLeft(w) + |w.tasks|
  }

  /** What could keep the finalizer polling for ever. First, a final text shorter than what is
      committed, or a limit of zero. */
  predicate CanBeShown(d: Display) {
    d.committedPrefixChars <= |d.latestContent| && (d.channelLimit != Some(0) || d.latestContent == "")
  }

  /** Second, a live message that is out of date and was accepted without an id, so that no edit can
      reach it. */
  predicate IsStale(d: Display) {
    && d.displayedSegment.Some? && d.messageId.None?
    && Active(d).Some? && d.displayedSegment != Some(Active(d).value.content)
  }

  /** The turn is over, nothing has failed and nothing is stale. */
  predicate Healthy(w: World) {
    Inv(w) && w.display.finalized && !w.display.terminalFailure && !IsStale(w.display)
  }

  predicate IsCompletion(w: World, e: Event) {
    Enabled(w, e) && (e.SendDone? || e.EditDone?)
  }

  /** A send of a text that is out of date is accepted without an id. */
  predicate LosesMessage(w: World, e: Event) {
    && IsCompletion(w, e) && e.SendDone? && e.sent.SentWithoutId?
    && Active(w.display).Some? && w.tasks[e.task].content != Active(w.display).value.content
  }

  // ---------------------------------------------------------------------------------------------
  // One step.

  lemma {:induction false} SameTextSameOps(w: World, w': World)
    requires Active(w'.display) == Active(w.display)
    requires w'.display.latestContent == w.display.latestContent
    requires w'.display.committedPrefixChars == w.display.committedPrefixChars
    requires w'.display.channelLimit == w.display.channelLimit
    requires |w.tasks| == 1 && w'.tasks == [] && w'.display.displayedSegment == Some(w.tasks[0].content)
    ensures OpsLeft(w') == OpsLeft(w)
  {
  }

  /** What a successful completion does to the display. */
  lemma {:induction false} CompletionShape(w: World, e: Event)
    requires Inv(w) && IsCompletion(w, e) && !Step(w, e).display.terminalFailure
    ensures var d, d' := w.display, Step(w, e).display;
            && |w.tasks| == 1 && Step(w, e).tasks == []
            && d'.displayedSegment == Some(w.tasks[0].content)
            && (d'.messageId.None? ==> e.SendDone? && e.sent.SentWithoutId? && e.task == 0)
            && d'.latestContent == d.latestContent && d'.committedPrefixChars == d.committedPrefixChars
            && d'.channelLimit == d.channelLimit && d'.finalized == d.finalized
            && d'.initialSendAttempted == d.initialSendAttempted
  {
    if e.SendDone? {
      SendDoneShape(w, e.task, e.sent);
    }
  }

  lemma {:induction false} CompletionUsesOne(w: World, e: Event)
    requires Healthy(w) && IsCompletion(w, e) && !LosesMessage(w, e) && !Step(w, e).display.terminalFailure
    ensures var w' := Step(w, e);
            && Healthy(w') && w'.display.latestContent == w.display.latestContent
            && (CanBeShown(w.display) ==> CanBeShown(w'.display))
            && OpsLeft(w') == OpsLeft(w) && |w.tasks| == 1 && w'.tasks == []
  {
    StepKeepsInv(w, e);
    CompletionShape(w, e);
    assert Active(Step(w, e).display) == Active(w.display);
    SameTextSameOps(w, Step(w, e));
  }

  lemma {:induction false} LostMessageIsStale(w: World, e: Event)
    requires Inv(w) && LosesMessage(w, e)
    ensures IsStuck(Step(w, e))
  {
    StepKeepsInv(w, e);
    SendDoneShape(w, e.task, e.sent);
    assert !w.display.terminalFailure;
    assert Active(Step(w, e).display) == Active(w.display);
  }

  predicate IsUpToDate(d: Display) {
    Active(d).Some? && d.displayedSegment == Some(Active(d).value.content)
  }

  /** The live message was up to date and full, and `r` is the display without it. */
  predicate RolledOver(d: Display, r: Display) {
    RollsOver(d, r) && r.committedPrefixChars <= |r.latestContent| && IsUpToDate(d)
  }

  lemma {:induction false} RolloverIsOfTheWhole(d: Display)
    requires TryRollover(d).1
    ensures RolledOver(d, TryRollover(d).0)
  {
  }

  lemma {:induction false} RolloverLeavesOneSegmentLess(d: Display, r: Display)
    requires RollsOver(d, r) && r.committedPrefixChars <= |r.latestContent| && d.channelLimit != Some(0)
    ensures Segments(|d.latestContent| - d.committedPrefixChars, d.channelLimit)
         == 1 + Segments(|r.latestContent| - r.committedPrefixChars, r.channelLimit)
  {
    FullSegment(|d.latestContent| - d.committedPrefixChars, |d.displayedSegment.value|);
  }

  lemma {:induction false} OpsLeftOfCurrent(w: World)
    requires w.tasks == [] && w.display.committedPrefixChars <= |w.display.latestContent| && IsUpToDate(w.display)
    ensures OpsLeft(w)
         == Segments(|w.display.latestContent| - w.display.committedPrefixChars, w.display.channelLimit) - 1
  {
  }

  lemma {:induction false} FullSegment(chars: nat, limit: nat)
    requires 0 < limit <= chars
    ensures Segments(chars, Some(limit)) == 1 + Segments(chars - limit, Some(limit))
  {
  }

  lemma {:induction false} OpsLeftOnceStarted(r: Display, w': World, action: Action)
    requires Starts(r, w'.display, action) && w'.tasks == [action]
    ensures OpsLeft(w') == Segments(|r.latestContent| - r.committedPrefixChars, r.channelLimit) - 1
  {
    assert Active(w'.display) == Active(r);
  }

  lemma {:induction false} BeforeRollover(w: World, r: Display)
    requires w.tasks == [] && RollsOver(w.display, r) && w.display.channelLimit != Some(0)
    requires r.committedPrefixChars <= |r.latestContent| && IsUpToDate(w.display)
    ensures OpsLeft(w) == Segments(|r.latestContent| - r.committedPrefixChars, r.channelLimit)
  {
    RolloverLeavesOneSegmentLess(w.display, r);
    OpsLeftOfCurrent(w);
  }

  lemma {:induction false} RolledOverCanBeShown(d: Display, r: Display)
    requires CanBeShown(d) && RolledOver(d, r)
    ensures CanBeShown(r) && d.channelLimit != Some(0)
  {
  }

  lemma {:induction false} StartedIsHealthy(r: Display, w': World, action: Action)
    requires Inv(w') && w'.tasks == [action] && Starts(r, w'.display, action)
    requires r.finalized && CanBeShown(r)
    ensures Healthy(w') && CanBeShown(w'.display) && w'.display.latestContent == r.latestContent
    ensures OpsLeft(w') == Segments(|r.latestContent| - r.committedPrefixChars, r.channelLimit) - 1
  {
    OpsLeftOnceStarted(r, w', action);
    assert Active(w'.display) == Active(r);
  }

  lemma {:induction false} RolloverStartsOne(w: World, r: Display, w': World)
    requires w.tasks == [] && r.finalized && CanBeShown(r)
    requires OpsLeft(w) == Segments(|r.latestContent| - r.committedPrefixChars, r.channelLimit)
    requires Inv(w') && |w'.tasks| == 1 && Starts(r, w'.display, w'.tasks[0])
    ensures Healthy(w') && CanBeShown(w'.display) && OpsLeft(w') == OpsLeft(w) - 1
  {
    StartedIsHealthy(r, w', w'.tasks[0]);
  }

  lemma {:induction false} PlainKickStartsOne(w: World, w': World)
    requires Healthy(w) && CanBeShown(w.display) && Inv(w')
    requires w.tasks == [] && |w'.tasks| == 1 && Starts(w.display, w'.display, w'.tasks[0])
    ensures Healthy(w') && CanBeShown(w'.display) && OpsLeft(w') == OpsLeft(w) - 1
  {
    StartedIsHealthy(w.display, w', w'.tasks[0]);
    NotYetCurrent(w, w'.display, w'.tasks[0]);
  }

  lemma {:induction false} NotYetCurrent(w: World, d': Display, action: Action)
    requires w.tasks == [] && Starts(w.display, d', action)
    ensures !IsCurrent(w, Active(w.display).value.content)
  {
  }

  lemma {:induction false} IdleKickMeansDone(w: World, editDue: bool)
    requires Healthy(w) && CanBeShown(w.display) && w.tasks == [] && Step(w, Kick(editDue)) == w
    ensures OpsLeft(w) == 0
  {
    if Active(w.display).Some? {
      IdleIsShown(w, editDue);
      LastSegmentLeavesNone(w);
    }
  }

  lemma {:induction false} IdleIsShown(w: World, editDue: bool)
    requires Inv(w) && w.display.finalized && !w.display.terminalFailure && !IsStale(w.display)
    requires w.tasks == [] && Active(w.display).Some? && Step(w, Kick(editDue)) == w
    ensures !TryRollover(w.display).1 && w.display.displayedSegment == Some(Active(w.display).value.content)
  {
    KickCases(w, editDue);
    assert !w.display.sendInFlight && !w.display.editInFlight;
  }

  lemma {:induction false} LastSegmentLeavesNone(w: World)
    requires CanBeShown(w.display) && w.tasks == [] && Active(w.display).Some? && !w.display.terminalFailure
    requires !w.display.sendInFlight && !w.display.editInFlight
    requires !TryRollover(w.display).1 && w.display.displayedSegment == Some(Active(w.display).value.content)
    ensures OpsLeft(w) == 0
  {
    var d := w.display;
    var n := |d.latestContent| - d.committedPrefixChars;
    assert Active(d).value.visibleChars == n;
    assert Segments(n, d.channelLimit) == 1 + Segments(0, d.channelLimit);
  }

  /** One of the operations still to come has started, unless none is left or one was running. */
  predicate StartsWhatIsLeft(w: World, w': World) {
    && Healthy(w') && CanBeShown(w'.display) && Remaining(w') == Remaining(w)
    && (w'.tasks != [] || OpsLeft(w') == 0)
    && (w.tasks != [] ==> w'.tasks != [])
  }

  lemma {:induction false} OneStartedIsOneLess(w: World, w': World)
    requires Healthy(w') && CanBeShown(w'.display) && OpsLeft(w') == OpsLeft(w) - 1
    requires w.tasks == [] && |w'.tasks| == 1
    ensures StartsWhatIsLeft(w, w')
  {
  }

  lemma {:induction false} RolloverKick(w: World, r: Display, w': World)
    requires Healthy(w) && CanBeShown(w.display) && RolledOver(w.display, r)
    requires Inv(w') && |w'.tasks| == 1 && Starts(r, w'.display, w'.tasks[0])
    ensures StartsWhatIsLeft(w, w')
  {
    IdleHasNoTasks(w);
    RolledOverCanBeShown(w.display, r);
    BeforeRollover(w, r);
    RolloverStartsOne(w, r, w');
    OneStartedIsOneLess(w, w');
  }

  /** A kick starts one of the operations still to come, and does so whenever nothing is running. */
  lemma {:induction false} KickStartsOne(w: World, editDue: bool)
    requires Healthy(w) && CanBeShown(w.display)
    ensures var w' := Step(w, Kick(editDue));
            StartsWhatIsLeft(w, w') && w'.display.latestContent == w.display.latestContent
  {
    var w' := Step(w, Kick(editDue));
    KickFreezes(w, editDue);
    KickCases(w, editDue);
    StepKeepsInv(w, Kick(editDue));
    if TryRollover(w.display).1 {
      RolloverIsOfTheWhole(w.display);
      RolloverKick(w, TryRollover(w.display).0, w');
    } else if w' != w {
      PlainKickStartsOne(w, w');
      OneStartedIsOneLess(w, w');
    } else if w.tasks == [] {
      IdleKickMeansDone(w, editDue);
    }
  }

  // ---------------------------------------------------------------------------------------------
  // Runs of the other tasks' events and the finalizer's kicks, in which nothing fails.

  lemma {:induction false} FailureStays(w: World, events: seq<Event>)
    requires Inv(w) && OnlyTaskEvents(events) && w.display.terminalFailure
    ensures Run(w, events).display.terminalFailure
  {
    RunLeadsOn(w, events);
  }

  lemma {:induction false} NoFailureSoFar(w: World, events: seq<Event>)
    requires Inv(w) && events != [] && OnlyTaskEvents(events) && !Run(w, events).display.terminalFailure
    ensures !w.display.terminalFailure && Inv(Step(w, events[0])) && !Step(w, events[0]).display.terminalFailure
    ensures OnlyTaskEvents(events[1..]) && Run(w, events) == Run(Step(w, events[0]), events[1..])
  {
    StepKeepsInv(w, events[0]);
    if w.display.terminalFailure {
      FailureStays(w, events);
    }
    if Step(w, events[0]).display.terminalFailure {
      FailureStays(Step(w, events[0]), events[1..]);
    }
  }

  /** Completions, and only completions, use up what remains. */
  function Completions(w: World, events: seq<Event>): nat
    decreases |events|
  {
    if events == [] then 0
    else (if IsCompletion(w, events[0]) then 1 else 0) + Completions(Step(w, events[0]), events[1..])
  }

  /** No outdated text is accepted without an id. */
  predicate KeepsTrack(w: World, events: seq<Event>)
    decreases |events|
  {
    events != [] ==> !LosesMessage(w, events[0]) && KeepsTrack(Step(w, events[0]), events[1..])
  }

  lemma {:induction false} StepUsesRemaining(w: World, e: Event)
    requires Healthy(w) && CanBeShown(w.display) && IsTaskEvent(e)
    requires !LosesMessage(w, e) && !Step(w, e).display.terminalFailure
    ensures var w' := Step(w, e);
            && Healthy(w') && CanBeShown(w'.display) && w'.display.latestContent == w.display.latestContent
            && Remaining(w) == (if IsCompletion(w, e) then 1 else 0) + Remaining(w')
            && (!IsCompletion(w, e) && w.tasks != [] ==> w'.tasks != [])
  {
    if e.Kick? {
      KickStartsOne(w, e.editDue);
    } else if Enabled(w, e) {
      CompletionUsesOne(w, e);
    }
  }

  /** What a run does, `c` of its events being completions. */
  predicate UsesUp(w: World, w': World, c: nat) {
    && Healthy(w') && CanBeShown(w'.display) && w'.display.latestContent == w.display.latestContent
    && Remaining(w) == c + Remaining(w')
    && (c == 0 && w.tasks != [] ==> w'.tasks != [])
  }

  /** However the events interleave, exactly `Remaining` operations finish before the whole text is
      shown, and none after. */
  lemma {:induction false} RunUsesRemaining(w: World, events: seq<Event>)
    requires Healthy(w) && CanBeShown(w.display) && OnlyTaskEvents(events)
    requires KeepsTrack(w, events) && !Run(w, events).display.terminalFailure
    ensures UsesUp(w, Run(w, events), Completions(w, events))
    decreases |events|
  {
    if events != [] {
      NoFailureSoFar(w, events);
      StepUsesRemaining(w, events[0]);
      RunUsesRemaining(Step(w, events[0]), events[1..]);
    }
  }

  lemma {:induction false} RunLosesMessage(w: World, events: seq<Event>)
    requires Healthy(w) && CanBeShown(w.display) && OnlyTaskEvents(events)
    requires !KeepsTrack(w, events) && !Run(w, events).display.terminalFailure
    ensures IsStuck(Run(w, events)) && Run(w, events).display.latestContent == w.display.latestContent
    decreases |events|
  {
    NoFailureSoFar(w, events);
    RunLeadsOn(w, events);
    if LosesMessage(w, events[0]) {
      LostMessageIsStale(w, events[0]);
      StaleMessageWithoutIdBlocks(Step(w, events[0]), events[1..]);
    } else {
      StepUsesRemaining(w, events[0]);
      RunLosesMessage(Step(w, events[0]), events[1..]);
    }
  }

  lemma {:induction false} NothingCompletes(w: World, e: Event)
    requires Healthy(w) && CanBeShown(w.display) && Remaining(w) == 0
    ensures !IsCompletion(w, e) && !LosesMessage(w, e)
  {
    OpsLeftIsBounded(w);
    assert w.tasks == [];
  }

  lemma {:induction false} NothingMoreHappens(w: World, events: seq<Event>)
    requires Healthy(w) && CanBeShown(w.display) && Remaining(w) == 0 && OnlyTaskEvents(events)
    requires !Run(w, events).display.terminalFailure
    ensures KeepsTrack(w, events) && Completions(w, events) == 0
    decreases |events|
  {
    if events != [] {
      NoFailureSoFar(w, events);
      NothingCompletes(w, events[0]);
      StepUsesRemaining(w, events[0]);
      NothingMoreHappens(Step(w, events[0]), events[1..]);
    }
  }

  lemma {:induction false} CountOfConcat(w: World, first: seq<Event>, second: seq<Event>)
    ensures Completions(w, first + second) == Completions(w, first) + Completions(Run(w, first), second)
    ensures KeepsTrack(w, first + second) <==> KeepsTrack(w, first) && KeepsTrack(Run(w, first), second)
    decreases |first|
  {
    if first == [] {
      assert first + second == second;
    } else {
      assert (first + second)[0] == first[0] && (first + second)[1..] == first[1..] + second;
      CountOfConcat(Step(w, first[0]), first[1..], second);
    }
  }

  lemma {:induction false} RunOfConcat(w: World, first: seq<Event>, second: seq<Event>)
    ensures Run(w, first + second) == Run(Run(w, first), second)
    decreases |first|
  {
    if first == [] {
      assert first + second == second;
    } else {
      assert (first + second)[0] == first[0] && (first + second)[1..] == first[1..] + second;
      RunOfConcat(Step(w, first[0]), first[1..], second);
    }
  }

  lemma {:induction false} RemainingIsBounded(w: World)
    requires TasksAreSound(w) && CanBeShown(w.display)
    ensures 0 <= Remaining(w) <= SegmentsLeft(w.display) + 1
  {
    OpsLeftIsBounded(w);
  }

  function SegmentsLeft(d: Display): nat {
    if d.committedPrefixChars <= |d.latestContent|
        then Segments(|d.latestContent| - d.committedPrefixChars, d.channelLimit) else 0
  }

  lemma {:induction false} OpsLeftIsBounded(w: World)
    requires CanBeShown(w.display)
    ensures 0 <= OpsLeft(w) <= SegmentsLeft(w.display)
  {
  }

  // ---------------------------------------------------------------------------------------------
  // The events of the rounds, one after the other.

  function EventsOf(round: Round): seq<Event> {
    round.before + ([Kick(false)] + round.after)
  }

  function AllEvents(schedule: seq<Round>): seq<Event> {
    if schedule == [] then [] else EventsOf(schedule[0]) + AllEvents(schedule[1..])
  }

  lemma {:induction false} RoundIsItsEvents(w: World, round: Round)
    ensures RunRound(w, round) == Run(w, EventsOf(round))
  {
    RunOfConcat(w, round.before, [Kick(false)] + round.after);
    assert ([Kick(false)] + round.after)[1..] == round.after;
  }

  lemma {:induction false} RoundEventsAreTasks(round: Round)
    requires OnlyTasksIn(round)
    ensures OnlyTaskEvents(EventsOf(round))
  {
    var n := |round.before|;
    forall i | 0 <= i < |EventsOf(round)|
      ensures IsTaskEvent(EventsOf(round)[i])
    {
      if i < n {
        assert EventsOf(round)[i] == round.before[i];
      } else if i > n {
        assert EventsOf(round)[i] == round.after[i - n - 1];
      }
    }
  }

  lemma {:induction false} AllEventsAreTasks(schedule: seq<Round>)
    requires OnlyTaskRounds(schedule)
    ensures OnlyTaskEvents(AllEvents(schedule))
  {
    if schedule != [] {
      RoundEventsAreTasks(schedule[0]);
      RestIsOnlyTasks(schedule);
      AllEventsAreTasks(schedule[1..]);
      TasksOfConcat(EventsOf(schedule[0]), AllEvents(schedule[1..]));
    }
  }

  lemma {:induction false} TasksOfConcat(first: seq<Event>, second: seq<Event>)
    requires OnlyTaskEvents(first) && OnlyTaskEvents(second)
    ensures OnlyTaskEvents(first + second)
  {
  }

  lemma {:induction false} RestIsOnlyTasks(schedule: seq<Round>)
    requires schedule != [] && OnlyTaskRounds(schedule)
    ensures OnlyTasksIn(schedule[0]) && OnlyTaskRounds(schedule[1..])
  {
  }

  /** One round of a schedule: where it leads, and what is left to happen. */
  lemma {:induction false} FirstRound(w: World, schedule: seq<Round>)
    requires Inv(w) && schedule != [] && OnlyTaskRounds(schedule)
    ensures var w', first, rest := RunRound(w, schedule[0]), EventsOf(schedule[0]), AllEvents(schedule[1..]);
            && w' == Run(w, first) && Inv(w') && HasTried(w')
            && OnlyTaskEvents(first) && OnlyTaskRounds(schedule[1..])
            && Run(w, AllEvents(schedule)) == Run(w', rest)
            && Completions(w, AllEvents(schedule)) == Completions(w, first) + Completions(w', rest)
            && (KeepsTrack(w, AllEvents(schedule)) <==> KeepsTrack(w, first) && KeepsTrack(w', rest))
            && (!Run(w, AllEvents(schedule)).display.terminalFailure ==> !w'.display.terminalFailure)
  {
    var first, rest := EventsOf(schedule[0]), AllEvents(schedule[1..]);
    RestIsOnlyTasks(schedule);
    RoundIsItsEvents(w, schedule[0]);
    RoundEventsAreTasks(schedule[0]);
    RoundTries(w, schedule[0]);
    RunOfConcat(w, first, rest);
    CountOfConcat(w, first, rest);
    AllEventsAreTasks(schedule[1..]);
    if Run(w, first).display.terminalFailure {
      FailureStays(Run(w, first), rest);
    }
  }

  // ---------------------------------------------------------------------------------------------
  // The loop.

  /** Once a kick had its chance, the poll returns success exactly when nothing remains. */
  lemma {:induction false} PollReturnsWhenNothingRemains(w: World)
    requires Healthy(w) && CanBeShown(w.display) && HasTried(w)
    ensures Poll(w.display, w.display.latestContent) == if Remaining(w) == 0 then ReturnOk else Continue
  {
    OpsLeftIsBounded(w);
    if w.tasks != [] {
      assert w.display.sendInFlight || w.display.editInFlight;
    } else if Active(w.display).Some? {
      TriedIsShowing(w);
      LastSegmentIff(w);
    }
  }

  lemma {:induction false} TriedIsShowing(w: World)
    requires Inv(w) && HasTried(w) && w.tasks == [] && Active(w.display).Some? && !w.display.terminalFailure
    ensures w.display.displayedSegment.Some? && !w.display.sendInFlight && !w.display.editInFlight
  {
  }

  lemma {:induction false} LastSegmentIff(w: World)
    requires CanBeShown(w.display) && w.tasks == [] && Active(w.display).Some?
    ensures var d := w.display;
            OpsLeft(w) == 0 <==> && d.displayedSegment == Some(Active(d).value.content)
                                 && d.committedPrefixChars + Active(d).value.visibleChars == |d.latestContent|
  {
    var d := w.display;
    var n := |d.latestContent| - d.committedPrefixChars;
    assert Segments(n, d.channelLimit) == 1 + Segments(n - Active(d).value.visibleChars, d.channelLimit);
  }

  /** The loop returns exactly when as many operations have finished as there were to come, all of them
      tracked. */
  lemma {:induction false} LoopReturnsIff(w: World, content: string, schedule: seq<Round>)
    requires Healthy(w) && CanBeShown(w.display) && HasTried(w) && w.display.latestContent == content
    requires OnlyTaskRounds(schedule) && !Run(w, AllEvents(schedule)).display.terminalFailure
    ensures FinalizeLoop(w, content, schedule).1
         == if KeepsTrack(w, AllEvents(schedule)) && Completions(w, AllEvents(schedule)) == Remaining(w)
            then ReturnOk else Continue
    decreases |schedule|
  {
    PollReturnsWhenNothingRemains(w);
    if Remaining(w) == 0 {
      AllEventsAreTasks(schedule);
      NothingMoreHappens(w, AllEvents(schedule));
    } else if schedule != [] {
      var w' := RunRound(w, schedule[0]);
      FirstRound(w, schedule);
      if KeepsTrack(w, EventsOf(schedule[0])) {
        RunUsesRemaining(w, EventsOf(schedule[0]));
        LoopReturnsIff(w', content, schedule[1..]);
      } else {
        RunLosesMessage(w, EventsOf(schedule[0]));
        StuckLoopNeverReturns(w', content, schedule[1..]);
      }
    }
  }

  // ---------------------------------------------------------------------------------------------
  // How many rounds that takes.

  predicate NothingAfterKicks(schedule: seq<Round>) {
    forall i :: 0 <= i < |schedule| ==> schedule[i].after == []
  }

  /** The rounds that begin with nothing running or in which an operation finishes; in the others the
      loop only polls while an operation goes on. */
  function UsefulRounds(w: World, schedule: seq<Round>): nat
    decreases |schedule|
  {
    if schedule == [] then 0
    else (if w.tasks == [] || Completions(w, EventsOf(schedule[0])) > 0 then 1 else 0)
         + UsefulRounds(RunRound(w, schedule[0]), schedule[1..])
  }

  /** How many useful rounds are enough. When operations can finish between a kick and the next poll, a
      round can begin with nothing running, so that each operation may take two. */
  function RoundsNeeded(w: World, quiet: bool): int {
    if quiet then Remaining(w) else 2 * Remaining(w) - |w.tasks|
  }

  /** After a round something is running or nothing is left to start, unless an operation finished after
      the kick. */
  lemma {:induction false} RoundStartsOne(w: World, round: Round)
    requires Healthy(w) && CanBeShown(w.display) && OnlyTasksIn(round)
    requires KeepsTrack(w, EventsOf(round)) && !RunRound(w, round).display.terminalFailure
    ensures Completions(w, EventsOf(round)) == 0 || round.after == [] ==>
              RunRound(w, round).tasks != [] || OpsLeft(RunRound(w, round)) == 0
  {
    var v, k, after := Run(w, round.before), KickIn(w, round), round.after;
    RoundIsItsEvents(w, round);
    CountOfConcat(w, round.before, [Kick(false)] + after);
    assert ([Kick(false)] + after)[1..] == after;
    RunKeepsInv(w, round.before);
    if v.display.terminalFailure {
      KickKeepsFailure(v, false);
    }
    StepKeepsInv(v, Kick(false));
    if k.display.terminalFailure {
      FailureStays(k, after);
    }
    KickKeepsFailure(v, false);
    RunUsesRemaining(w, round.before);
    KickStartsOne(v, false);
    RunUsesRemaining(k, after);
    KickedStaysStarted(k, RunRound(w, round), Completions(k, after));
  }

  lemma {:induction false} KickedStaysStarted(k: World, w': World, c: nat)
    requires UsesUp(k, w', c) && CanBeShown(k.display) && (k.tasks != [] || OpsLeft(k) == 0)
    ensures c == 0 ==> w'.tasks != [] || OpsLeft(w') == 0
  {
    OpsLeftIsBounded(w');
  }

  lemma {:induction false} RoundMakesProgress(w: World, w': World, c: nat, endsWithKick: bool, quiet: bool)
    requires TasksAreSound(w) && Remaining(w) > 0 && UsesUp(w, w', c)
    requires c == 0 || endsWithKick ==> w'.tasks != [] || OpsLeft(w') == 0
    requires quiet ==> w.tasks != []
    ensures if w.tasks == [] || c > 0 then RoundsNeeded(w', quiet) < RoundsNeeded(w, quiet)
            else RoundsNeeded(w', quiet) == RoundsNeeded(w, quiet)
  {
    assert |w.tasks| <= 1 && |w'.tasks| <= 1;
  }

  lemma {:induction false} LoopReturnsInTime(w: World, content: string, schedule: seq<Round>, quiet: bool)
    requires Healthy(w) && CanBeShown(w.display) && HasTried(w) && w.display.latestContent == content
    requires OnlyTaskRounds(schedule) && !Run(w, AllEvents(schedule)).display.terminalFailure
    requires KeepsTrack(w, AllEvents(schedule))
    requires quiet ==> NothingAfterKicks(schedule) && (w.tasks != [] || OpsLeft(w) == 0)
    requires RoundsNeeded(w, quiet) <= UsefulRounds(w, schedule)
    ensures FinalizeLoop(w, content, schedule).1 == ReturnOk
    decreases |schedule|
  {
    PollReturnsWhenNothingRemains(w);
    RemainingIsBounded(w);
    if Remaining(w) > 0 {
      SomeRoundIsNeeded(w, quiet);
      var w' := RunRound(w, schedule[0]);
      FirstRound(w, schedule);
      RunUsesRemaining(w, EventsOf(schedule[0]));
      RoundStartsOne(w, schedule[0]);
      RoundMakesProgress(w, w', Completions(w, EventsOf(schedule[0])), schedule[0].after == [], quiet);
      LoopReturnsInTime(w', content, schedule[1..], quiet);
    }
  }

  lemma {:induction false} SomeRoundIsNeeded(w: World, quiet: bool)
    requires TasksAreSound(w) && Remaining(w) > 0
    ensures RoundsNeeded(w, quiet) > 0
  {
  }

  // ---------------------------------------------------------------------------------------------
  // Failures.

  /** After a failure the next poll returns: nothing is running any more. */
  lemma {:induction false} PollAfterFailure(w: World, content: string)
    requires Inv(w) && w.display.terminalFailure
    ensures Poll(w.display, content) != Continue
  {
  }

  lemma {:induction false} LoopReturnsAfterFailure(w: World, content: string, schedule: seq<Round>)
    requires Inv(w) && OnlyTaskRounds(schedule) && Run(w, AllEvents(schedule)).display.terminalFailure
    ensures FinalizeLoop(w, content, schedule).1 != Continue
    decreases |schedule|
  {
    if Poll(w.display, content) == Continue {
      if schedule == [] {
        PollAfterFailure(w, content);
      } else {
        FirstRound(w, schedule);
        LoopReturnsAfterFailure(RunRound(w, schedule[0]), content, schedule[1..]);
      }
    }
  }

  // ---------------------------------------------------------------------------------------------
  // The texts the finalizer can never finish.

  lemma {:induction false} EmptyMessagesHaveNoText(messages: seq<RemoteMessage>)
    requires forall m <- messages :: m.text == ""
    ensures TextOf(messages) == ""
  {
    if messages != [] {
      EmptyMessagesHaveNoText(messages[..|messages| - 1]);
    }
  }

  predicate Unshowable(w: World) {
    Inv(w) && !w.display.terminalFailure && !CanBeShown(w.display)
  }

  lemma {:induction false} UnshowableTextIsNeverDone(w: World)
    requires Unshowable(w) && w.display.initialSendAttempted
    ensures Poll(w.display, w.display.latestContent) == Continue
  {
    if w.display.channelLimit == Some(0) {
      EmptyMessagesHaveNoText(Frozen(w));
    }
  }

  lemma {:induction false} UnshowableStaysUnshowable(w: World, e: Event)
    requires Unshowable(w) && IsTaskEvent(e) && !Step(w, e).display.terminalFailure
    ensures var w' := Step(w, e);
            && Unshowable(w') && w'.display.latestContent == w.display.latestContent
            && (w.display.initialSendAttempted || e.Kick? ==> w'.display.initialSendAttempted)
  {
    StepKeepsInv(w, e);
    StepKeepsLimit(w, e);
    if e.Kick? {
      KickAttemptsTheUnshowable(w, e.editDue);
      KickFreezes(w, e.editDue);
    } else if Enabled(w, e) {
      CompletionShape(w, e);
    }
  }

  lemma {:induction false} KickAttemptsTheUnshowable(w: World, editDue: bool)
    requires Unshowable(w)
    ensures Step(w, Kick(editDue)).display.initialSendAttempted
  {
    KickTries(w, editDue);
    KickCases(w, editDue);
    if w.display.committedPrefixChars > 0 {
      assert Frozen(w) != [];
    }
  }

  lemma {:induction false} UnshowableRuns(w: World, events: seq<Event>)
    requires Unshowable(w) && OnlyTaskEvents(events) && !Run(w, events).display.terminalFailure
    ensures var w' := Run(w, events);
            && Unshowable(w') && w'.display.latestContent == w.display.latestContent
            && (w.display.initialSendAttempted || (exists i :: 0 <= i < |events| && events[i].Kick?) ==>
                  w'.display.initialSendAttempted)
    decreases |events|
  {
    if events != [] {
      NoFailureSoFar(w, events);
      UnshowableStaysUnshowable(w, events[0]);
      UnshowableRuns(Step(w, events[0]), events[1..]);
      if i :| 0 < i < |events| && events[i].Kick? {
        assert events[1..][i - 1].Kick?;
      }
    }
  }

  lemma {:induction false} UnshowableRound(w: World, round: Round)
    requires Unshowable(w) && OnlyTasksIn(round) && !RunRound(w, round).display.terminalFailure
    ensures var w' := RunRound(w, round);
            Unshowable(w') && w'.display.initialSendAttempted && w'.display.latestContent == w.display.latestContent
  {
    RoundIsItsEvents(w, round);
    RoundEventsAreTasks(round);
    assert EventsOf(round)[|round.before|].Kick?;
    UnshowableRuns(w, EventsOf(round));
  }

  lemma {:induction false} UnshowableLoopNeverReturns(w: World, content: string, schedule: seq<Round>)
    requires Unshowable(w) && w.display.initialSendAttempted && w.display.latestContent == content
    requires OnlyTaskRounds(schedule) && !Run(w, AllEvents(schedule)).display.terminalFailure
    ensures FinalizeLoop(w, content, schedule).1 == Continue
    decreases |schedule|
  {
    UnshowableTextIsNeverDone(w);
    if schedule != [] {
      FirstRound(w, schedule);
      UnshowableRound(w, schedule[0]);
      UnshowableLoopNeverReturns(RunRound(w, schedule[0]), content, schedule[1..]);
    }
  }

  // ---------------------------------------------------------------------------------------------
  // The message that no edit can reach.

  predicate IsStuck(w: World) {
    Inv(w) && !w.display.terminalFailure && IsStale(w.display)
  }

  lemma {:induction false} StuckKick(w: World, editDue: bool)
    requires IsStuck(w)
    ensures Step(w, Kick(editDue)) == w
  {
    KickCases(w, editDue);
  }

  /** A message accepted without an id that is out of date can never be edited: whatever the tasks and
      the kicks do, nothing happens any more, and the finalizer polls for ever. */
  lemma {:induction false} StaleMessageWithoutIdBlocks(w: World, events: seq<Event>)
    requires IsStuck(w) && OnlyTaskEvents(events)
    ensures Run(w, events) == w && Poll(w.display, w.display.latestContent) == Continue
    decreases |events|
  {
    if events != [] {
      if events[0].Kick? {
        StuckKick(w, events[0].editDue);
      }
      assert w.tasks == [];
      StaleMessageWithoutIdBlocks(w, events[1..]);
    }
  }

  lemma {:induction false} StuckRound(w: World, round: Round)
    requires IsStuck(w) && OnlyTasksIn(round)
    ensures RunRound(w, round) == w
  {
    StaleMessageWithoutIdBlocks(w, round.before);
    StuckKick(w, false);
    StaleMessageWithoutIdBlocks(w, round.after);
  }

  lemma {:induction false} StuckLoopNeverReturns(w: World, content: string, schedule: seq<Round>)
    requires IsStuck(w) && w.display.latestContent == content && OnlyTaskRounds(schedule)
    ensures FinalizeLoop(w, content, schedule).1 == Continue
    decreases |schedule|
  {
    StaleMessageWithoutIdBlocks(w, []);
    if schedule != [] {
      StuckRound(w, schedule[0]);
      StuckLoopNeverReturns(w, content, schedule[1..]);
    }
  }

  // ---------------------------------------------------------------------------------------------
  // The main results.

  /** What is needed for the finalizer to return without a failure: the text can be shown, no message
      is stale or lost, and all the operations to come have finished. */
  predicate IsDoneBy(w: World, events: seq<Event>) {
    && CanBeShown(w.display) && !IsStale(w.display)
    && KeepsTrack(w, events) && Completions(w, events) == Remaining(w)
  }

  /** From any sound state, for any events of the other tasks in any order, failures, missing ids and
      operations that never finish among them: the finalizer returns if and only if an operation has
      failed, or the final text is at least as long as the committed prefix, the limit is not zero (or
      there is nothing to show), no live message without an id is out of date, no outdated text is
      accepted without one, and exactly the operations that were to come have finished. */
  lemma {:induction false} FinalizerReturnsIff(w: World, content: string, start: Round, schedule: seq<Round>)
    requires Inv(w) && OnlyTasksIn(start) && OnlyTaskRounds(schedule)
    ensures var w0, events := Step(w, BeginFinalize(content)), AllEvents([start] + schedule);
            var verdict := Finalize(w, content, start, schedule).1;
            if Run(w0, events).display.terminalFailure then verdict != Continue
            else verdict == if IsDoneBy(w0, events) then ReturnOk else Continue
  {
    AfterBeginFinalize(w, content);
    FinalizedReturnsIff(Step(w, BeginFinalize(content)), content, start, schedule);
  }

  lemma {:induction false} FinalizedReturnsIff(w: World, content: string, start: Round, schedule: seq<Round>)
    requires Inv(w) && w.display.finalized && w.display.latestContent == content
    requires OnlyTasksIn(start) && OnlyTaskRounds(schedule)
    ensures var events, verdict := AllEvents([start] + schedule), FinalizeLoop(RunRound(w, start), content, schedule).1;
            if Run(w, events).display.terminalFailure then verdict != Continue
            else verdict == if IsDoneBy(w, events) then ReturnOk else Continue
  {
    var all, events := [start] + schedule, AllEvents([start] + schedule);
    assert all[0] == start && all[1..] == schedule;
    FirstRound(w, all);
    if Run(w, events).display.terminalFailure {
      LoopReturnsAfterFailure(RunRound(w, start), content, schedule);
    } else {
      AllTasks(start, schedule);
      NoFailureAtAll(w, events);
      if IsStale(w.display) {
        StuckRound(w, start);
        StuckLoopNeverReturns(w, content, schedule);
      } else if !CanBeShown(w.display) {
        UnshowableRound(w, start);
        UnshowableLoopNeverReturns(RunRound(w, start), content, schedule);
      } else {
        ShowableReturnsIff(w, RunRound(w, start), EventsOf(start), content, schedule);
      }
    }
  }

  lemma {:induction false} AllTasks(start: Round, schedule: seq<Round>)
    requires OnlyTasksIn(start) && OnlyTaskRounds(schedule)
    ensures OnlyTaskRounds([start] + schedule) && OnlyTaskEvents(AllEvents([start] + schedule))
  {
    AllEventsAreTasks([start] + schedule);
  }

  lemma {:induction false} NoFailureAtAll(w: World, events: seq<Event>)
    requires Inv(w) && OnlyTaskEvents(events) && !Run(w, events).display.terminalFailure
    ensures !w.display.terminalFailure
  {
    if w.display.terminalFailure {
      FailureStays(w, events);
    }
  }

  lemma {:induction false} ShowableReturnsIff(
      w: World, w': World, first: seq<Event>, content: string, schedule: seq<Round>)
    requires Healthy(w) && CanBeShown(w.display) && w.display.latestContent == content
    requires w' == Run(w, first) && HasTried(w') && OnlyTaskEvents(first) && OnlyTaskRounds(schedule)
    requires !w'.display.terminalFailure && !Run(w', AllEvents(schedule)).display.terminalFailure
    ensures FinalizeLoop(w', content, schedule).1
         == if && KeepsTrack(w, first) && KeepsTrack(w', AllEvents(schedule))
               && Completions(w, first) + Completions(w', AllEvents(schedule)) == Remaining(w)
            then ReturnOk else Continue
  {
    if KeepsTrack(w, first) {
      RunUsesRemaining(w, first);
      LoopReturnsIff(w', content, schedule);
    } else {
      RunLosesMessage(w, first);
      StuckLoopNeverReturns(w', content, schedule);
    }
  }

  function EnoughFor(segments: nat, quiet: bool): nat {
    (if quiet then segments else 2 * segments) + 1
  }

  /** Every operation to come is started in good time: when nothing fails, the text can be shown and no
      message is stale or lost, the finalizer returns after at most one useful round more than there are
      segments left, provided nothing happens between a kick and the next poll, and otherwise after at
      most twice as many. Rounds in which an operation just goes on are free. */
  lemma {:induction false} FinalizerReturnsInTime(
      w: World, content: string, start: Round, schedule: seq<Round>, quiet: bool)
    requires Inv(w) && OnlyTasksIn(start) && OnlyTaskRounds(schedule)
    requires var w0, events := Step(w, BeginFinalize(content)), AllEvents([start] + schedule);
             && !Run(w0, events).display.terminalFailure
             && CanBeShown(w0.display) && !IsStale(w0.display) && KeepsTrack(w0, events)
             && EnoughFor(SegmentsLeft(w0.display), quiet) <= UsefulRounds(RunRound(w0, start), schedule)
    requires quiet ==> NothingAfterKicks([start] + schedule)
    ensures Finalize(w, content, start, schedule).1 == ReturnOk
  {
    AfterBeginFinalize(w, content);
    FinalizedReturnsInTime(Step(w, BeginFinalize(content)), content, start, schedule, quiet);
  }

  lemma {:induction false} FinalizedReturnsInTime(
      w: World, content: string, start: Round, schedule: seq<Round>, quiet: bool)
    requires Inv(w) && w.display.finalized && w.display.latestContent == content
    requires OnlyTasksIn(start) && OnlyTaskRounds(schedule)
    requires var events := AllEvents([start] + schedule);
             !Run(w, events).display.terminalFailure && KeepsTrack(w, events)
    requires CanBeShown(w.display) && !IsStale(w.display)
    requires EnoughFor(SegmentsLeft(w.display), quiet) <= UsefulRounds(RunRound(w, start), schedule)
    requires quiet ==> NothingAfterKicks([start] + schedule)
    ensures FinalizeLoop(RunRound(w, start), content, schedule).1 == ReturnOk
  {
    var all, w' := [start] + schedule, RunRound(w, start);
    assert all[0] == start && all[1..] == schedule;
    FirstRound(w, all);
    AllTasks(start, schedule);
    NoFailureAtAll(w, AllEvents(all));
    RunUsesRemaining(w, EventsOf(start));
    RoundStartsOne(w, start);
    StartLeavesEnough(w, w', Completions(w, EventsOf(start)), quiet);
    if quiet {
      assert forall i :: 0 <= i < |schedule| ==> schedule[i] == all[i + 1];
    }
    LoopReturnsInTime(w', content, schedule, quiet);
  }

  lemma {:induction false} StartLeavesEnough(w: World, w': World, c: nat, quiet: bool)
    requires TasksAreSound(w) && CanBeShown(w.display) && UsesUp(w, w', c)
    ensures RoundsNeeded(w', quiet) <= EnoughFor(SegmentsLeft(w.display), quiet)
  {
    OpsLeftIsBounded(w);
    OpsLeftIsBounded(w');
    EnoughRounds(OpsLeft(w), |w.tasks|, OpsLeft(w'), |w'.tasks|, c, SegmentsLeft(w.display), quiet);
  }

  lemma {:induction false} EnoughRounds(ops: int, tasks: int, ops': int, tasks': int, c: int, segments: int,
      quiet: bool)
    requires 0 <= ops <= segments && 0 <= tasks <= 1 && 0 <= ops' && 0 <= tasks' <= 1 && 0 <= c
    requires ops + tasks == c + ops' + tasks' && (c == 0 && tasks > 0 ==> tasks' > 0)
    ensures (if quiet then ops' + tasks' else 2 * (ops' + tasks') - tasks') <= EnoughFor(segments, quiet)
  {
  }
}
