/** The streaming display as the code has it: one object, updated in place under its mutex.
    Each method is proved against the function of the same name in `StreamingDisplay`. */
module StreamingDisplayState {
  import opened Options
  import opened StreamingSegments
  import Spec = StreamingDisplay

  type MessageId = Spec.MessageId

  lemma KickStep(w: Spec.World, w': Spec.World, editDue: bool, action: Option<Spec.Action>)
    requires (w'.display, action) == Spec.NextAction(w.display, editDue) && w'.remote == w.remote
    requires w'.tasks == if action.Some? then w.tasks + [action.value] else w.tasks
    ensures w' == Spec.Step(w, Spec.Kick(editDue))
  {
  }

  class StreamingDisplay {
    const channelLimit: Option<nat>
    var latestContent: string
    var committedPrefixChars: nat
    var displayedSegment: Option<string>
    var messageId: Option<MessageId>
    var initialSendAttempted: bool
    var sendInFlight: bool
    var editInFlight: bool
    var finalized: bool
    var terminalFailure: bool
    var errorMessage: Option<string>
    // The tasks spawned and not yet finished, and the messages the chat channel has accepted.
    var tasks: seq<Spec.Action>
    var remote: seq<Spec.RemoteMessage>

    function Display(): Spec.Display
      reads this
    {
      Spec.Display(channelLimit, latestContent, committedPrefixChars, displayedSegment, messageId,
                   initialSendAttempted, sendInFlight, editInFlight, finalized, terminalFailure, errorMessage)
    }

    function World(): Spec.World
      reads this
    {
      Spec.World(Display(), tasks, remote)
    }

    constructor (limit: Option<nat>)
      ensures World() == Spec.InitialWorld(limit)
    {
      channelLimit := limit;
      latestContent, committedPrefixChars, displayedSegment, messageId := "", 0, None, None;
      initialSendAttempted, sendInFlight, editInFlight := false, false, false;
      finalized, terminalFailure, errorMessage := false, false, None;
      tasks, remote := [], [];
    }

    /** `try_rollover_streaming_segment` */
    method TryRollover() returns (rolled: bool)
      modifies this
      ensures (Display(), rolled) == old(Spec.TryRollover(Display()))
      ensures tasks == old(tasks) && remote == old(remote)
    {
      if sendInFlight || editInFlight || terminalFailure {
        return false;
      }
      var segment := ActiveStreamingSegment(latestContent, committedPrefixChars, channelLimit);
      if segment.None? || !segment.value.hasOverflow || displayedSegment != Some(segment.value.content) {
        return false;
      }
      committedPrefixChars := committedPrefixChars + segment.value.visibleChars;
      displayedSegment := None;
      messageId := None;
      initialSendAttempted := false;
      errorMessage := None;
      return true;
    }

    /** `next_streaming_display_action` */
    method NextAction(editDue: bool) returns (action: Option<Spec.Action>)
      modifies this
      ensures (Display(), action) == old(Spec.NextAction(Display(), editDue))
      ensures tasks == old(tasks) && remote == old(remote)
    {
      if terminalFailure || latestContent == "" {
        return None;
      }
      var rolled := TryRollover();
      var segment := ActiveStreamingSegment(latestContent, committedPrefixChars, channelLimit);
      if segment.None? {
        return None;
      }
      if messageId.None? {
        if sendInFlight || displayedSegment.Some? || initialSendAttempted {
          return None;
        }
        initialSendAttempted := true;
        sendInFlight := true;
        return Some(Spec.SendInitial(segment.value.content));
      }
      if editInFlight {
        return None;
      }
      if displayedSegment == Some(segment.value.content) {
        return None;
      }
      if !finalized && !editDue {
        return None;
      }
      editInFlight := true;
      return Some(Spec.Edit(messageId.value, segment.value.content));
    }

    /** `spawn_next_streaming_display_action`, up to the spawn */
    method SpawnNextAction(editDue: bool)
      modifies this
      ensures World() == old(Spec.Step(World(), Spec.Kick(editDue)))
    {
      ghost var before := World();
      var action := NextAction(editDue);
      if action.Some? {
        tasks := tasks + [action.value];
      }
      KickStep(before, World(), editDue, action);
    }

    /** `spawn_streaming_display_update` */
    method SpawnUpdate(content: string, editDue: bool)
      modifies this
      ensures World() == old(Spec.Run(World(), [Spec.Update(content), Spec.Kick(editDue)]))
    {
      ghost var before := World();
      latestContent := content;
      assert World() == Spec.Step(before, Spec.Update(content));
      SpawnNextAction(editDue);
      assert World() == Spec.Run(Spec.Step(before, Spec.Update(content)), [Spec.Kick(editDue)]);
    }

    /** The end of a spawned send: the channel's answer, then the locked section that records it. */
    method FinishSend(i: nat, sent: Spec.SendResult)
      requires Spec.Enabled(World(), Spec.SendDone(i, sent))
      modifies this
      ensures World() == old(Spec.Step(World(), Spec.SendDone(i, sent)))
    {
      var content := tasks[i].content;
      tasks := Spec.WithoutTask(tasks, i);
      sendInFlight := false;
      match sent {
        case SentWithId(id) =>
          remote := remote + [Spec.RemoteMessage(Some(id), content)];
          messageId := Some(id);
          displayedSegment := Some(content);
          errorMessage := None;
        case SentWithoutId =>
          remote := remote + [Spec.RemoteMessage(None, content)];
          displayedSegment := Some(content);
          errorMessage := None;
        case SendFailed(error) =>
          errorMessage := Some(error);
          terminalFailure := true;
      }
    }

    /** The end of a spawned edit. */
    method FinishEdit(i: nat, edited: Spec.EditResult)
      requires Spec.Enabled(World(), Spec.EditDone(i, edited))
      modifies this
      ensures World() == old(Spec.Step(World(), Spec.EditDone(i, edited)))
    {
      var action := tasks[i];
      tasks := Spec.WithoutTask(tasks, i);
      editInFlight := false;
      match edited {
        case Edited =>
          remote := Spec.EditRemote(remote, action.messageId, action.content);
          displayedSegment := Some(action.content);
          errorMessage := None;
        case EditFailed(error) =>
          errorMessage := Some(error);
          terminalFailure := true;
      }
    }

    /** Whatever the other tasks do while the finalizer sleeps. */
    method LetTasksRun(events: seq<Spec.Event>)
      requires Spec.OnlyTaskEvents(events)
      modifies this
      ensures World() == old(Spec.Run(World(), events))
    {
      ghost var before := World();
      for k := 0 to |events|
        invariant Spec.Run(World(), events[k..]) == Spec.Run(before, events)
      {
        var e := events[k];
        assert events[k..][1..] == events[k + 1..];
        if Spec.Enabled(World(), e) {
          match e {
            case Kick(editDue) => SpawnNextAction(editDue);
            case SendDone(i, sent) => FinishSend(i, sent);
            case EditDone(i, edited) => FinishEdit(i, edited);
          }
        }
      }
      assert events[|events|..] == [];
    }

    /** The finalizer's kick, with other tasks before and after it. */
    method KickAmid(round: Spec.Round)
      requires Spec.OnlyTasksIn(round)
      modifies this
      ensures World() == old(Spec.RunRound(World(), round))
    {
      LetTasksRun(round.before);
      SpawnNextAction(false);
      LetTasksRun(round.after);
    }

    method Poll(content: string) returns (verdict: Spec.Verdict)
      ensures verdict == Spec.Poll(Display(), content)
    {
      var idle := !sendInFlight && !editInFlight;
      if idle && terminalFailure && errorMessage.Some? {
        if messageId.Some? || displayedSegment.Some? || committedPrefixChars > 0 {
          return Spec.ReturnErr(errorMessage.value);
        }
      }
      if idle && committedPrefixChars == |content| {
        return Spec.ReturnOk;
      }
      var segment := ActiveStreamingSegment(latestContent, committedPrefixChars, channelLimit);
      if idle && segment.Some? && displayedSegment == Some(segment.value.content)
         && committedPrefixChars + segment.value.visibleChars == |content| {
        return Spec.ReturnOk;
      }
      if idle && messageId.None? && displayedSegment.None? {
        return Spec.PlainSend;
      }
      return Spec.Continue;
    }

    /** `finalize_streaming_display`: the loop, with what other tasks do between its locked sections. */
    method Finalize(content: string, start: Spec.Round, schedule: seq<Spec.Round>) returns (verdict: Spec.Verdict)
      requires Spec.OnlyTasksIn(start) && Spec.OnlyTaskRounds(schedule)
      modifies this
      ensures (World(), verdict) == old(Spec.Finalize(World(), content, start, schedule))
    {
      ghost var before := World();
      latestContent := content;
      finalized := true;
      assert World() == Spec.Step(before, Spec.BeginFinalize(content));
      KickAmid(start);
      ghost var entered := World();
      for k := 0 to |schedule|
        invariant Spec.FinalizeLoop(World(), content, schedule[k..]) == Spec.FinalizeLoop(entered, content, schedule)
      {
        assert schedule[k..][1..] == schedule[k + 1..];
        verdict := Poll(content);
        if verdict != Spec.Continue {
          return;
        }
        KickAmid(schedule[k]);
      }
      assert schedule[|schedule|..] == [];
      verdict := Poll(content);
    }
  }
}
