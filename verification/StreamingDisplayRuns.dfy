/** What every execution of the streaming display keeps. */
module StreamingDisplayRuns {
  import opened Options
  import opened StreamingDisplay

  // ---------------------------------------------------------------------------------------------
  // Invariants of every reachable state: no assumption on the text, the limit or the failures.

  lemma {:induction false} FrozenThenLive(w: World)
    requires LiveIsSound(w)
    ensures TextOf(w.remote)
         == TextOf(Frozen(w)) + (if w.display.displayedSegment.Some? then w.display.displayedSegment.value else "")
  {
  }

  predicate RollsOver(d: Display, r: Display) {
    && !d.sendInFlight && !d.editInFlight && !d.terminalFailure
    && d.displayedSegment.Some? && d.channelLimit == Some(|d.displayedSegment.value|)
    && r == d.(committedPrefixChars := d.committedPrefixChars + |d.displayedSegment.value|,
               displayedSegment := None, messageId := None, initialSendAttempted := false, errorMessage := None)
  }

  lemma {:induction false} RolloverShape(d: Display)
    requires TryRollover(d).1
    ensures RollsOver(d, TryRollover(d).0) && Active(TryRollover(d).0).Some?
  {
  }

  lemma {:induction false} RolledOverIsSound(w: World, r: Display)
    requires Inv(w) && RollsOver(w.display, r)
    ensures var w' := w.(display := r);
            && TasksAreSound(w') && LiveIsSound(w') && FrozenIsSound(w')
            && Frozen(w') == w.remote && !r.terminalFailure && !r.sendInFlight && w'.tasks == []
  {
    FrozenThenLive(w);
    IdleHasNoTasks(w);
    FullMessageFreezes(w, w.(display := r));
  }

  lemma {:induction false} IdleHasNoTasks(w: World)
    requires TasksAreSound(w) && !w.display.sendInFlight && !w.display.editInFlight
    ensures w.tasks == []
  {
  }

  lemma {:induction false} FullMessageFreezes(w: World, w': World)
    requires LiveIsSound(w) && FrozenIsSound(w) && RollsOver(w.display, w'.display) && w'.remote == w.remote
    requires |TextOf(w.remote)| == w'.display.committedPrefixChars
    ensures FrozenIsSound(w') && Frozen(w') == w.remote
  {
    assert w.remote == Frozen(w) + [w.remote[|w.remote| - 1]];
  }

  /** A rollover freezes the full live message; only the flag that the next send will set is left. */
  lemma {:induction false} RolloverFreezesTheLiveMessage(w: World)
    requires Inv(w) && TryRollover(w.display).1
    ensures var w' := w.(display := TryRollover(w.display).0);
            && TasksAreSound(w') && LiveIsSound(w') && FrozenIsSound(w')
            && Frozen(w') == w.remote && Active(w'.display).Some?
            && !w'.display.terminalFailure && !w'.display.sendInFlight && w'.tasks == []
  {
    RolloverShape(w.display);
    RolledOverIsSound(w, TryRollover(w.display).0);
  }

  lemma {:induction false} StartingASendIsSound(w: World, content: string)
    requires TasksAreSound(w) && LiveIsSound(w) && FrozenIsSound(w) && w.tasks == []
    requires !w.display.terminalFailure && w.display.displayedSegment.None?
    requires Fits(content, w.display.channelLimit)
    ensures Inv(World(w.display.(initialSendAttempted := true, sendInFlight := true),
                      [SendInitial(content)], w.remote))
  {
    var w' := World(w.display.(initialSendAttempted := true, sendInFlight := true), [SendInitial(content)], w.remote);
    assert Frozen(w') == Frozen(w);
  }

  lemma {:induction false} StartingAnEditIsSound(w: World, content: string)
    requires Inv(w) && w.tasks == [] && !w.display.terminalFailure && w.display.messageId.Some?
    requires Fits(content, w.display.channelLimit)
    ensures Inv(World(w.display.(editInFlight := true), [Edit(w.display.messageId.value, content)], w.remote))
  {
    var w' := World(w.display.(editInFlight := true), [Edit(w.display.messageId.value, content)], w.remote);
    assert Frozen(w') == Frozen(w);
  }

  /** The operation a kick may start on `d`, which has no rollover pending. */
  predicate Starts(d: Display, d': Display, action: Action) {
    && !d.terminalFailure && !d.sendInFlight && !d.editInFlight
    && Active(d) != None && action.content == Active(d).value.content
    && (match action
        case SendInitial(_) =>
          && d.displayedSegment.None? && d.messageId.None? && !d.initialSendAttempted
          && d' == d.(initialSendAttempted := true, sendInFlight := true)
        case Edit(id, _) =>
          && d.messageId == Some(id) && d.displayedSegment != Some(action.content)
          && d' == d.(editInFlight := true))
  }

  /** A kick rolls over and sends, or starts one operation without rollover, or does nothing. */
  lemma {:induction false} KickCases(w: World, editDue: bool)
    requires Inv(w)
    ensures var d := w.display;
            var w' := Step(w, Kick(editDue));
            var (r, rolled) := TryRollover(d);
            && w'.remote == w.remote
            && (rolled ==> |w'.tasks| == 1 && w'.tasks[0].SendInitial? && Starts(r, w'.display, w'.tasks[0]))
            && (!rolled && w' != w ==> w.tasks == [] && |w'.tasks| == 1 && Starts(d, w'.display, w'.tasks[0]))
  {
    if TryRollover(w.display).1 {
      RolloverFreezesTheLiveMessage(w);
    }
  }

  lemma {:induction false} ActiveFits(d: Display)
    ensures Active(d).Some? ==> Fits(Active(d).value.content, d.channelLimit)
  {
  }

  /** Starting an operation keeps the invariant, also right after a rollover. */
  lemma {:induction false} StartedKeepsInv(w: World, w': World, action: Action)
    requires TasksAreSound(w) && LiveIsSound(w) && FrozenIsSound(w) && w.tasks == []
    requires action.Edit? ==> Inv(w)
    requires Starts(w.display, w'.display, action) && w'.tasks == [action] && w'.remote == w.remote
    ensures Inv(w')
  {
    ActiveFits(w.display);
    match action
    case SendInitial(content) => StartingASendIsSound(w, content);
    case Edit(_, content) => StartingAnEditIsSound(w, content);
  }

  lemma {:induction false} KickKeepsInv(w: World, editDue: bool)
    requires Inv(w)
    ensures Inv(Step(w, Kick(editDue)))
  {
    var w' := Step(w, Kick(editDue));
    KickCases(w, editDue);
    if TryRollover(w.display).1 {
      RolloverFreezesTheLiveMessage(w);
      StartedKeepsInv(w.(display := TryRollover(w.display).0), w', w'.tasks[0]);
    } else if w' != w {
      StartedKeepsInv(w, w', w'.tasks[0]);
    }
  }

  lemma {:induction false} FreshIdStaysDistinct(remote: seq<RemoteMessage>, m: RemoteMessage)
    requires IdsAreDistinct(remote)
    requires m.id.Some? ==> forall k :: 0 <= k < |remote| ==> remote[k].id != m.id
    ensures IdsAreDistinct(remote + [m])
  {
  }

  lemma {:induction false} AcceptedSendKeepsInv(w: World, m: RemoteMessage)
    requires Inv(w) && w.tasks == [SendInitial(m.text)]
    requires m.id.Some? ==> forall k :: 0 <= k < |w.remote| ==> w.remote[k].id != m.id
    ensures Inv(World(w.display.(sendInFlight := false, messageId := m.id, displayedSegment := Some(m.text),
        errorMessage := None),
                      [], w.remote + [m]))
  {
    var w' := World(w.display.(sendInFlight := false, messageId := m.id, displayedSegment := Some(m.text),
        errorMessage := None),
                    [], w.remote + [m]);
    assert w.tasks[0] == SendInitial(m.text);
    FreshIdStaysDistinct(w.remote, m);
    assert Frozen(w) == w.remote && Frozen(w') == w.remote;
  }

  lemma {:induction false} FailedSendKeepsInv(w: World, content: string, error: string)
    requires Inv(w) && w.tasks == [SendInitial(content)]
    ensures Inv(World(w.display.(sendInFlight := false, errorMessage := Some(error), terminalFailure := true), [],
        w.remote))
  {
    var w' := World(w.display.(sendInFlight := false, errorMessage := Some(error), terminalFailure := true), [],
        w.remote);
    assert Frozen(w') == Frozen(w);
  }

  lemma {:induction false} SendDoneShape(w: World, i: nat, sent: SendResult)
    requires TasksAreSound(w) && Enabled(w, SendDone(i, sent))
    ensures w.tasks == [SendInitial(w.tasks[i].content)] && w.display.messageId.None?
    ensures Step(w, SendDone(i, sent)) ==
            match sent
            case SentWithId(id) => World(CompleteSend(w.display, w.tasks[i].content, sent), [],
                                         w.remote + [RemoteMessage(Some(id), w.tasks[i].content)])
            case SentWithoutId => World(CompleteSend(w.display, w.tasks[i].content, sent), [],
                                        w.remote + [RemoteMessage(None, w.tasks[i].content)])
            case SendFailed(_) => World(CompleteSend(w.display, w.tasks[i].content, sent), [], w.remote)
  {
    assert i == 0 && WithoutTask(w.tasks, i) == [];
  }

  lemma {:induction false} SendDoneKeepsInv(w: World, i: nat, sent: SendResult)
    requires Inv(w) && Enabled(w, SendDone(i, sent))
    ensures Inv(Step(w, SendDone(i, sent)))
  {
    SendDoneShape(w, i, sent);
    match sent
    case SendFailed(error) => FailedSendKeepsInv(w, w.tasks[i].content, error);
    case SentWithId(id) => AcceptedSendKeepsInv(w, RemoteMessage(Some(id), w.tasks[i].content));
    case SentWithoutId => AcceptedSendKeepsInv(w, RemoteMessage(None, w.tasks[i].content));
  }

  /** An edit reaches the live message and no other. */
  lemma {:induction false} EditTouchesOnlyTheLastMessage(w: World, text: string)
    requires Inv(w) && w.display.messageId.Some?
    ensures var n := |w.remote| - 1;
            && n >= 0
            && EditRemote(w.remote, w.display.messageId.value, text)
            == w.remote[..n] + [RemoteMessage(w.display.messageId, text)]
  {
  }

  lemma {:induction false} EditDoneKeepsInv(w: World, i: nat, edited: EditResult)
    requires Inv(w) && Enabled(w, EditDone(i, edited))
    ensures Inv(Step(w, EditDone(i, edited)))
  {
    var w' := Step(w, EditDone(i, edited));
    assert w'.tasks == [];
    if edited.Edited? {
      EditTouchesOnlyTheLastMessage(w, w.tasks[i].content);
    }
    assert Frozen(w') == Frozen(w);
  }

  lemma {:induction false} StepKeepsInv(w: World, e: Event)
    requires Inv(w)
    ensures Inv(Step(w, e))
  {
    if Enabled(w, e) {
      match e
      case Update(content) => assert Frozen(Step(w, e)) == Frozen(w);
      case BeginFinalize(content) => assert Frozen(Step(w, e)) == Frozen(w);
      case Kick(editDue) => KickKeepsInv(w, editDue);
      case SendDone(i, sent) => SendDoneKeepsInv(w, i, sent);
      case EditDone(i, edited) => EditDoneKeepsInv(w, i, edited);
    }
  }

  lemma {:induction false} RunKeepsInv(w: World, events: seq<Event>)
    requires Inv(w)
    ensures Inv(Run(w, events))
    decreases |events|
  {
    if events != [] {
      StepKeepsInv(w, events[0]);
      RunKeepsInv(Step(w, events[0]), events[1..]);
    }
  }

  /** In every reachable state, however updates, polls and completions interleave: at most one send
      or edit is running, an edit is for the newest message, every older message has exactly
      `limit` characters, no message has more, and the committed prefix counts the older ones. */
  lemma {:induction false} ReachableStatesAreSound(limit: Option<nat>, events: seq<Event>)
    ensures var w := Run(InitialWorld(limit), events);
            && Inv(w)
            && |w.tasks| <= 1
            && (forall t <- w.tasks :: t.Edit? ==> w.remote != [] && w.remote[|w.remote| - 1].id == Some(t.messageId))
            && (limit.Some? ==>
                  && (forall k :: 0 <= k < |w.remote| - 1 ==> |w.remote[k].text| == limit.value)
                  && (forall m <- w.remote :: |m.text| <= limit.value))
            && (limit.None? ==> |w.remote| <= 1)
            && |TextOf(Frozen(w))| == w.display.committedPrefixChars
  {
    var w := Run(InitialWorld(limit), events);
    RunKeepsInv(InitialWorld(limit), events);
    RunKeepsLimit(InitialWorld(limit), events);
    if limit.Some? {
      MessagesAreFull(w);
    }
  }

  lemma {:induction false} MessagesAreFull(w: World)
    requires LiveIsSound(w) && FrozenIsSound(w) && w.display.channelLimit.Some?
    ensures var limit := w.display.channelLimit.value;
            && (forall k :: 0 <= k < |w.remote| - 1 ==> |w.remote[k].text| == limit)
            && (forall m <- w.remote :: |m.text| <= limit)
  {
    forall k | 0 <= k < |w.remote|
      ensures var limit := w.display.channelLimit.value;
              |w.remote[k].text| <= limit && (k < |w.remote| - 1 ==> |w.remote[k].text| == limit)
    {
      if k < |Frozen(w)| {
        assert Frozen(w)[k] == w.remote[k] && Frozen(w)[k] in Frozen(w);
      }
    }
  }

  lemma {:induction false} StepKeepsLimit(w: World, e: Event)
    requires Inv(w)
    ensures Step(w, e).display.channelLimit == w.display.channelLimit
  {
    if e.Kick? {
      KickCases(w, e.editDue);
    }
  }

  lemma {:induction false} RunKeepsLimit(w: World, events: seq<Event>)
    requires Inv(w)
    ensures Run(w, events).display.channelLimit == w.display.channelLimit
    decreases |events|
  {
    if events != [] {
      StepKeepsInv(w, events[0]);
      StepKeepsLimit(w, events[0]);
      RunKeepsLimit(Step(w, events[0]), events[1..]);
    }
  }

  // ---------------------------------------------------------------------------------------------
  // The frozen messages show the committed prefix of the text, exactly when updates keep it.

  predicate CommittedPrefixIsShown(w: World) {
    var d := w.display;
    d.committedPrefixChars <= |d.latestContent| && TextOf(Frozen(w)) == d.latestContent[..d.committedPrefixChars]
  }

  predicate KeepsCommittedPrefix(d: Display, content: string) {
    var n := d.committedPrefixChars;
    && n <= |d.latestContent| && n <= |content|
    && content[..n] == d.latestContent[..n]
  }

  predicate UpdatesKeepCommittedPrefix(w: World, events: seq<Event>)
    decreases |events|
  {
    events != [] ==>
    && ((events[0].Update? || events[0].BeginFinalize?) ==> KeepsCommittedPrefix(w.display, events[0].content))
    && UpdatesKeepCommittedPrefix(Step(w, events[0]), events[1..])
  }

  /** New text preserves the property if and only if it keeps the committed characters. */
  lemma {:induction false} UpdateKeepsShownPrefixIff(w: World, content: string)
    requires Inv(w) && CommittedPrefixIsShown(w)
    ensures CommittedPrefixIsShown(Step(w, Update(content))) <==> KeepsCommittedPrefix(w.display, content)
    ensures CommittedPrefixIsShown(Step(w, BeginFinalize(content))) <==> KeepsCommittedPrefix(w.display, content)
  {
    assert Frozen(Step(w, Update(content))) == Frozen(w);
    assert Frozen(Step(w, BeginFinalize(content))) == Frozen(w);
  }

  /** What one kick does to the frozen text and the committed prefix. */
  lemma {:induction false} KickFreezes(w: World, editDue: bool)
    requires Inv(w)
    ensures var w' := Step(w, Kick(editDue));
            var d, d' := w.display, w'.display;
            && d'.latestContent == d.latestContent && w'.remote == w.remote
            && d.committedPrefixChars <= d'.committedPrefixChars
            && (d'.committedPrefixChars > d.committedPrefixChars ==> d'.committedPrefixChars < |d.latestContent|)
            && TextOf(Frozen(w')) == TextOf(Frozen(w))
                 + if d'.committedPrefixChars > d.committedPrefixChars
                   then d.latestContent[d.committedPrefixChars..d'.committedPrefixChars] else ""
  {
    var w' := Step(w, Kick(editDue));
    KickCases(w, editDue);
    if TryRollover(w.display).1 {
      RolloverFreezesTheLiveMessage(w);
      FrozenThenLive(w);
      assert Frozen(w') == w.remote;
    } else {
      assert Frozen(w') == Frozen(w);
    }
  }

  lemma {:induction false} StepKeepsShownPrefix(w: World, e: Event)
    requires Inv(w) && CommittedPrefixIsShown(w)
    requires (e.Update? || e.BeginFinalize?) ==> KeepsCommittedPrefix(w.display, e.content)
    ensures CommittedPrefixIsShown(Step(w, e))
  {
    var w' := Step(w, e);
    if e.Update? || e.BeginFinalize? {
      UpdateKeepsShownPrefixIff(w, e.content);
    } else if e.Kick? {
      KickFreezes(w, e.editDue);
      var a, b := w.display.committedPrefixChars, w'.display.committedPrefixChars;
      assert w.display.latestContent[..a] + w.display.latestContent[a..b] == w.display.latestContent[..b];
    } else if Enabled(w, e) {
      CompletionKeepsFrozen(w, e);
    }
  }

  lemma {:induction false} CompletionKeepsFrozen(w: World, e: Event)
    requires Inv(w) && Enabled(w, e) && (e.SendDone? || e.EditDone?)
    ensures var w' := Step(w, e);
            && Frozen(w') == Frozen(w) && w'.tasks == []
            && w'.display.latestContent == w.display.latestContent
            && w'.display.committedPrefixChars == w.display.committedPrefixChars
  {
    if e.EditDone? && e.edited.Edited? {
      EditTouchesOnlyTheLastMessage(w, w.tasks[e.task].content);
    }
  }

  /** As long as every new text keeps the committed characters, the frozen messages concatenate to
      exactly those characters. */
  lemma {:induction false} FrozenMessagesShowCommittedPrefix(w: World, events: seq<Event>)
    requires Inv(w) && CommittedPrefixIsShown(w) && UpdatesKeepCommittedPrefix(w, events)
    ensures CommittedPrefixIsShown(Run(w, events))
    decreases |events|
  {
    if events != [] {
      StepKeepsInv(w, events[0]);
      StepKeepsShownPrefix(w, events[0]);
      FrozenMessagesShowCommittedPrefix(Step(w, events[0]), events[1..]);
    }
  }

  // ---------------------------------------------------------------------------------------------
  // While the text only grows, the reader sees a prefix of it.

  predicate TextOnlyGrows(w: World, events: seq<Event>)
    decreases |events|
  {
    events != [] ==>
    && ((events[0].Update? || events[0].BeginFinalize?) ==> w.display.latestContent <= events[0].content)
    && TextOnlyGrows(Step(w, events[0]), events[1..])
  }

  predicate LiveTextIsCurrent(w: World) {
    var d := w.display;
    && CommittedPrefixIsShown(w)
    && (d.displayedSegment.Some? ==> d.displayedSegment.value <= d.latestContent[d.committedPrefixChars..])
    && (forall t <- w.tasks :: t.content <= d.latestContent[d.committedPrefixChars..])
  }

  lemma {:induction false} SliceOfExtension(s: string, t: string, n: nat)
    requires s <= t && n <= |s|
    ensures s[n..] <= t[n..]
  {
  }

  lemma {:induction false} KickKeepsLiveTextCurrent(w: World, editDue: bool)
    requires Inv(w) && LiveTextIsCurrent(w)
    ensures LiveTextIsCurrent(Step(w, Kick(editDue)))
  {
    var w' := Step(w, Kick(editDue));
    StepKeepsShownPrefix(w, Kick(editDue));
    KickCases(w, editDue);
    if w' != w {
      var d := if TryRollover(w.display).1 then TryRollover(w.display).0 else w.display;
      StartedIsCurrent(d, w'.display, w'.tasks[0]);
      if !TryRollover(w.display).1 {
        KickFreezes(w, editDue);
        assert w'.display.committedPrefixChars == w.display.committedPrefixChars;
      }
    }
  }

  lemma {:induction false} StartedIsCurrent(d: Display, d': Display, action: Action)
    requires Starts(d, d', action)
    ensures d'.committedPrefixChars == d.committedPrefixChars <= |d'.latestContent|
    ensures d'.displayedSegment == d.displayedSegment
    ensures action.content <= d'.latestContent[d'.committedPrefixChars..]
  {
  }

  lemma {:induction false} StepKeepsLiveTextCurrent(w: World, e: Event)
    requires Inv(w) && LiveTextIsCurrent(w)
    requires (e.Update? || e.BeginFinalize?) ==> w.display.latestContent <= e.content
    ensures LiveTextIsCurrent(Step(w, e))
  {
    var d := w.display;
    var n := d.committedPrefixChars;
    if e.Kick? {
      KickKeepsLiveTextCurrent(w, e.editDue);
    } else {
      StepKeepsShownPrefix(w, e);
      if e.Update? || e.BeginFinalize? {
        SliceOfExtension(d.latestContent, e.content, n);
      } else if Enabled(w, e) {
        CompletionKeepsLiveTextCurrent(w, e);
      }
    }
  }

  lemma {:induction false} CompletionKeepsLiveTextCurrent(w: World, e: Event)
    requires Inv(w) && LiveTextIsCurrent(w) && Enabled(w, e) && (e.SendDone? || e.EditDone?)
    requires CommittedPrefixIsShown(Step(w, e))
    ensures LiveTextIsCurrent(Step(w, e))
  {
    CompletionKeepsFrozen(w, e);
    if e.SendDone? {
      SendDoneShape(w, e.task, e.sent);
    }
  }

  lemma {:induction false} ReaderSeesAPrefixOfTheText(w: World, events: seq<Event>)
    requires Inv(w) && LiveTextIsCurrent(w) && TextOnlyGrows(w, events)
    ensures LiveTextIsCurrent(Run(w, events))
    ensures TextOf(Run(w, events).remote) <= Run(w, events).display.latestContent
    decreases |events|
  {
    if events == [] {
      FrozenThenLive(w);
    } else {
      StepKeepsInv(w, events[0]);
      StepKeepsLiveTextCurrent(w, events[0]);
      ReaderSeesAPrefixOfTheText(Step(w, events[0]), events[1..]);
    }
  }
}
