/** Runs of the display in which a hypothesis fails, and with it the promise. */
module StreamingCounterexamples {
  import opened Options
  import opened StreamingSegments
  import opened StreamingDisplay
  import opened StreamingDisplayRuns
  import opened StreamingFinalize
  import opened StreamingTermination

  /** A send without an id is enough to block: the text "a" is accepted without one, then it grows. */
  lemma {:induction false} MissingIdBlocksForEver(start: Round, schedule: seq<Round>)
    requires OnlyTasksIn(start) && OnlyTaskRounds(schedule)
    ensures var w := Run(InitialWorld(None), [Update("a"), Kick(false), SendDone(0, SentWithoutId)]);
            && w.remote == [RemoteMessage(None, "a")]
            && Finalize(w, "ab", start, schedule).1 == Continue
  {
    var w := World(InitialDisplay(None).(latestContent := "a", displayedSegment := Some("a"), initialSendAttempted :=
        true),
                   [], [RemoteMessage(None, "a")]);
    ThreeSteps(InitialWorld(None), Update("a"), Kick(false), SendDone(0, SentWithoutId));
    FirstSendWithoutId();
    var w0 := Step(w, BeginFinalize("ab"));
    assert "ab"[0..2] == "ab";
    assert IsStuck(w0) by {
      RunKeepsInv(InitialWorld(None), [Update("a"), Kick(false), SendDone(0, SentWithoutId)]);
      AfterBeginFinalize(w, "ab");
    }
    StuckRound(w0, start);
    StuckLoopNeverReturns(w0, "ab", schedule);
  }

  lemma {:induction false} FirstSendWithoutId()
    ensures Step(Step(Step(InitialWorld(None), Update("a")), Kick(false)), SendDone(0, SentWithoutId))
         == World(InitialDisplay(None).(latestContent := "a", displayedSegment := Some("a"), initialSendAttempted :=
             true),
                  [], [RemoteMessage(None, "a")])
  {
    var d := InitialDisplay(None).(latestContent := "a");
    assert "a"[0..1] == "a";
    assert Active(d) == Some(Segment("a", 1, false));
    var w2 := Step(World(d, [], []), Kick(false));
    assert w2 == World(d.(initialSendAttempted := true, sendInFlight := true), [SendInitial("a")], []);
  }

  lemma {:induction false} ThreeSteps(w: World, e1: Event, e2: Event, e3: Event)
    ensures Run(w, [e1, e2, e3]) == Step(Step(Step(w, e1), e2), e3)
  {
    PrependStep(Step(Step(w, e1), e2), e3, []);
    PrependStep(Step(w, e1), e2, [e3]);
    PrependStep(w, e1, [e2, e3]);
    assert [e1, e2, e3] == [e1] + [e2, e3] && [e2, e3] == [e2] + [e3] && [e3] == [e3] + [];
  }

  /** With a limit of one: "ab" streamed and shown in full, as a frozen "a" and a live "b". */
  const SHOWN_AB := World(
    Display(Some(1), "ab", 1, Some("b"), Some("2"), true, false, false, false, false, None),
    [], [RemoteMessage(Some("1"), "a"), RemoteMessage(Some("2"), "b")])

  function AbDisplay(committed: nat, shown: Option<string>, id: Option<MessageId>, attempted: bool,
      sending: bool): Display {
    Display(Some(1), "ab", committed, shown, id, attempted, sending, false, false, false, None)
  }

  lemma {:induction false} FirstSendOfAb()
    ensures Step(World(AbDisplay(0, None, None, false, false), [], []), Kick(false))
         == World(AbDisplay(0, None, None, true, true), [SendInitial("a")], [])
  {
    assert Active(AbDisplay(0, None, None, false, false)) == Some(Segment("ab"[0..1], 1, true));
    assert "ab"[0..1] == "a";
  }

  lemma {:induction false} RolloverOfAb(remote: seq<RemoteMessage>)
    ensures Step(World(AbDisplay(0, Some("a"), Some("1"), true, false), [], remote), Kick(false))
         == World(AbDisplay(1, None, None, true, true), [SendInitial("b")], remote)
  {
    var d := AbDisplay(0, Some("a"), Some("1"), true, false);
    assert "ab"[0..1] == "a" && "ab"[1..2] == "b";
    assert Active(d) == Some(Segment("a", 1, true));
    assert TryRollover(d) == (AbDisplay(1, None, None, false, false), true);
    assert Active(AbDisplay(1, None, None, false, false)) == Some(Segment("b", 1, false));
  }

  lemma {:induction false} SendOfAbDone(d: Display, text: string, id: MessageId, remote: seq<RemoteMessage>)
    requires forall k :: 0 <= k < |remote| ==> remote[k].id != Some(id)
    ensures Step(World(d, [SendInitial(text)], remote), SendDone(0, SentWithId(id)))
         == World(CompleteSend(d, text, SentWithId(id)), [], remote + [RemoteMessage(Some(id), text)])
  {
  }

  lemma {:induction false} PrependStep(w: World, e: Event, events: seq<Event>)
    ensures Run(w, [e] + events) == Run(Step(w, e), events)
  {
    assert ([e] + events)[1..] == events;
  }

  lemma {:induction false} FirstHalfOfAb()
    ensures Step(Step(World(AbDisplay(0, None, None, false, false), [], []), Kick(false)), SendDone(0, SentWithId("1")))
         == World(AbDisplay(0, Some("a"), Some("1"), true, false), [], [RemoteMessage(Some("1"), "a")])
  {
    FirstSendOfAb();
    SendOfAbDone(AbDisplay(0, None, None, true, true), "a", "1", []);
  }

  lemma {:induction false} SecondHalfOfAb(one: seq<RemoteMessage>)
    requires one == [RemoteMessage(Some("1"), "a")]
    ensures Step(Step(World(AbDisplay(0, Some("a"), Some("1"), true, false), [], one), Kick(false)),
        SendDone(0, SentWithId("2")))
         == SHOWN_AB
  {
    RolloverOfAb(one);
    SendOfAbDone(AbDisplay(1, None, None, true, true), "b", "2", one);
  }

  lemma {:induction false} AbIsSentInTwo(w: World)
    requires w == World(AbDisplay(0, None, None, false, false), [], [])
    ensures exists events :: Run(w, events) == SHOWN_AB
  {
    FirstHalfOfAb();
    SecondHalfOfAb([RemoteMessage(Some("1"), "a")]);
    TwoHalvesAreARun(w, World(AbDisplay(0, Some("a"), Some("1"), true, false), [], [RemoteMessage(Some("1"), "a")]),
        SHOWN_AB,
                     Kick(false), SendDone(0, SentWithId("1")), Kick(false), SendDone(0, SentWithId("2")));
  }

  lemma {:induction false} TwoHalvesAreARun(w: World, half: World, end: World, e1: Event, e2: Event, e3: Event,
      e4: Event)
    requires Step(Step(w, e1), e2) == half && Step(Step(half, e3), e4) == end
    ensures exists events :: Run(w, events) == end
  {
    FourSteps(w, e1, e2, e3, e4);
  }

  lemma {:induction false} FourSteps(w: World, e1: Event, e2: Event, e3: Event, e4: Event)
    ensures Run(w, [e1] + ([e2] + ([e3] + ([e4] + [])))) == Step(Step(Step(Step(w, e1), e2), e3), e4)
  {
    var w1 := Step(w, e1);
    var w2 := Step(w1, e2);
    PrependStep(Step(w2, e3), e4, []);
    PrependStep(w2, e3, [e4] + []);
    PrependStep(w1, e2, [e3] + ([e4] + []));
    PrependStep(w, e1, [e2] + ([e3] + ([e4] + [])));
  }

  lemma {:induction false} ShownAbIsReachable()
    ensures exists events :: Run(InitialWorld(Some(1)), events) == SHOWN_AB
  {
    var w := Step(InitialWorld(Some(1)), Update("ab"));
    AbIsSentInTwo(w);
    var events :| Run(w, events) == SHOWN_AB;
    PrependStep(InitialWorld(Some(1)), Update("ab"), events);
  }

  /** The text restarts on every provider turn, so a later turn can break the committed prefix: with
      the reply "x" the finalizer reports success at once, while the channel still shows "ab". */
  lemma {:induction false} RestartedTextIsShownWrongly()
    ensures Finalize(SHOWN_AB, "x", Round([], []), []).1 == ReturnOk
    ensures TextOf(Finalize(SHOWN_AB, "x", Round([], []), []).0.remote) == "ab"
  {
    var w0 := Step(SHOWN_AB, BeginFinalize("x"));
    assert Step(w0, Kick(false)) == w0;
    assert SHOWN_AB.remote[..1] == [RemoteMessage(Some("1"), "a")];
    assert TextOf(SHOWN_AB.remote[..1]) == "a";
  }

  /** And with an empty reply, shorter than what is committed, the finalizer never returns unless an
      operation fails. */
  lemma {:induction false} ShortFinalTextBlocksForEver(start: Round, schedule: seq<Round>)
    requires OnlyTasksIn(start) && OnlyTaskRounds(schedule)
    ensures var end := Run(Step(SHOWN_AB, BeginFinalize("")), AllEvents([start] + schedule));
            Finalize(SHOWN_AB, "", start, schedule).1 == Continue <==> !end.display.terminalFailure
  {
    ShownAbIsReachable();
    var events :| Run(InitialWorld(Some(1)), events) == SHOWN_AB;
    RunKeepsInv(InitialWorld(Some(1)), events);
    FinalizerReturnsIff(SHOWN_AB, "", start, schedule);
  }
}
