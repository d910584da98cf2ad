/** When the display sends and edits, and with which text: what a request for the next action does to
    the tasks and the channel, told from the texts alone. */
module StreamingDisplayActions {
  import opened Options
  import opened StreamingDisplay
  import opened StreamingDisplayRuns

  // ---------------------------------------------------------------------------------------------
  // What is to be shown next.

  /** How many characters are behind the committed ones. */
  function Left(d: Display): int {
    |d.latestContent| - d.committedPrefixChars
  }

  function WindowLength(d: Display): nat
    requires Left(d) > 0
  {
    match d.channelLimit
    case Some(limit) => if limit < Left(d) then limit else Left(d)
    case None => Left(d)
  }

  /** The characters behind the committed ones, as many as a message may have. */
  function Window(d: Display): string
    requires Left(d) > 0
  {
    d.latestContent[d.committedPrefixChars..d.committedPrefixChars + WindowLength(d)]
  }

  predicate IsReady(w: World) {
    Inv(w) && w.tasks == [] && !w.display.terminalFailure && Left(w.display) > 0
  }

  predicate ShowsItsWindow(d: Display) {
    Left(d) > 0 && d.displayedSegment == Some(Window(d))
  }

  /** The live message is full and up to date, and there is more text. */
  predicate IsToRollOver(w: World) {
    IsReady(w) && ShowsItsWindow(w.display) && WindowLength(w.display) < Left(w.display)
  }

  /** There is no live message, and none was tried. */
  predicate IsToSend(w: World) {
    IsReady(w) && w.display.displayedSegment.None? && !w.display.initialSendAttempted
  }

  /** The live message can be edited and shows something else than it should. */
  predicate IsToEdit(w: World) {
    IsReady(w) && w.display.messageId.Some? && !ShowsItsWindow(w.display)
  }

  /** The display after the live message was given up for a new one. */
  function RolledOver(d: Display): Display
    requires Left(d) > 0
  {
    d.(committedPrefixChars := d.committedPrefixChars + WindowLength(d), displayedSegment := None,
       messageId := None, initialSendAttempted := false, errorMessage := None)
  }

  function Sending(r: Display): Display {
    r.(initialSendAttempted := true, sendInFlight := true)
  }

  lemma {:induction false} ActiveIsTheWindow(d: Display)
    ensures Active(d).Some? <==> Left(d) > 0
    ensures Left(d) > 0 ==>
              && Active(d).value.content == Window(d) && Active(d).value.visibleChars == WindowLength(d)
              && (Active(d).value.hasOverflow <==> WindowLength(d) < Left(d))
  {
  }

  // ---------------------------------------------------------------------------------------------
  // The three things that a request can start.

  /** Text that has no message yet is sent at once, whether an edit is due or not. */
  lemma {:induction false} SendIsStarted(w: World, due: bool)
    requires IsToSend(w)
    ensures Step(w, Kick(due)) == World(Sending(w.display), [SendInitial(Window(w.display))], w.remote)
  {
    ActiveIsTheWindow(w.display);
  }

  /** A live message that is out of date is edited to the whole window if and only if an edit is due or
      the turn is over; until then nothing changes. */
  lemma {:induction false} EditIsStartedIff(w: World, due: bool)
    requires IsToEdit(w)
    ensures var w' := Step(w, Kick(due));
            if due || w.display.finalized then
              w' == w.(display := w.display.(editInFlight := true),
                       tasks := [Edit(w.display.messageId.value, Window(w.display))])
            else w' == w
  {
    ActiveIsTheWindow(w.display);
  }

  lemma {:induction false} RollsOverToTheNext(d: Display)
    requires Left(d) > 0 && !d.sendInFlight && !d.editInFlight && !d.terminalFailure
    requires ShowsItsWindow(d) && WindowLength(d) < Left(d)
    ensures TryRollover(d) == (RolledOver(d), true)
  {
    ActiveIsTheWindow(d);
  }

  lemma {:induction false} SendAfterRollover(d: Display, r: Display, due: bool)
    requires !d.terminalFailure && d.latestContent != "" && TryRollover(d).0 == r
    requires Left(r) > 0 && r.messageId.None? && !r.sendInFlight && r.displayedSegment.None? && !r.initialSendAttempted
    ensures NextAction(d, due) == (Sending(r), Some(SendInitial(Window(r))))
  {
    ActiveIsTheWindow(r);
  }

  lemma {:induction false} KickedTo(w: World, due: bool, d: Display, action: Action)
    requires w.tasks == [] && NextAction(w.display, due) == (d, Some(action))
    ensures Step(w, Kick(due)) == World(d, [action], w.remote)
  {
  }

  /** Behind a full message the next window is sent at once. */
  lemma {:induction false} RolloverIsSent(w: World, due: bool)
    requires IsToRollOver(w)
    ensures var next := RolledOver(w.display);
            && Left(next) > 0
            && Step(w, Kick(due)) == World(Sending(next), [SendInitial(Window(next))], w.remote)
  {
    var next := RolledOver(w.display);
    RollsOverToTheNext(w.display);
    SendAfterRollover(w.display, next, due);
    KickedTo(w, due, Sending(next), SendInitial(Window(next)));
  }

  /** Nothing else is ever started. */
  lemma {:induction false} NothingElseIsStarted(w: World, due: bool)
    requires Inv(w) && !IsToSend(w) && !IsToEdit(w) && !IsToRollOver(w)
    ensures Step(w, Kick(due)) == w
  {
    ActiveIsTheWindow(w.display);
  }

  /** Before the model has produced any text there is nothing to send. */
  lemma {:induction false} NothingIsSentAtFirst(limit: Option<nat>, due: bool)
    ensures Step(InitialWorld(limit), Kick(due)) == InitialWorld(limit)
    ensures InitialWorld(limit).remote == [] && InitialWorld(limit).tasks == []
  {
    ReachableStatesAreSound(limit, []);
    NothingElseIsStarted(InitialWorld(limit), due);
  }

  // ---------------------------------------------------------------------------------------------
  // What the channel shows when that is done.

  /** The message that was sent is the last one of the channel and the live one, with the id it got. */
  lemma {:induction false} SendIsShown(w: World, content: string, id: Option<MessageId>)
    requires Inv(w) && w.tasks == [SendInitial(content)]
    requires id.Some? ==> forall m <- w.remote :: m.id != id
    ensures var w' := Step(w, SendDone(0, if id.Some? then SentWithId(id.value) else SentWithoutId));
            && w'.tasks == [] && w'.remote == w.remote + [RemoteMessage(id, content)]
            && w'.display == w.display.(sendInFlight := false, messageId := id, displayedSegment := Some(content),
                                        errorMessage := None)
  {
    assert WithoutTask(w.tasks, 0) == [];
  }

  /** The edited message is the last one of the channel, and no other one changes. */
  lemma {:induction false} EditIsShown(w: World, id: MessageId, content: string)
    requires Inv(w) && w.tasks == [Edit(id, content)]
    ensures var w' := Step(w, EditDone(0, Edited));
            var last := |w.remote| - 1;
            && last >= 0 && w'.tasks == [] && w'.remote == w.remote[..last] + [RemoteMessage(Some(id), content)]
            && w'.display == w.display.(editInFlight := false, displayedSegment := Some(content), errorMessage := None)
  {
    assert WithoutTask(w.tasks, 0) == [];
    var last := |w.remote| - 1;
    assert w.remote[last].id == Some(id);
    assert EditRemote(w.remote, id, content) == w.remote[..last] + [RemoteMessage(Some(id), content)];
  }

  lemma {:induction false} EditedShowsItsWindow(w: World, w1: World)
    requires Left(w.display) > 0 && w.display.messageId.Some? && Inv(w1)
    requires w1 == w.(display := w.display.(editInFlight := true),
                      tasks := [Edit(w.display.messageId.value, Window(w.display))])
    ensures var w' := Step(w1, EditDone(0, Edited));
            var last := |w.remote| - 1;
            && last >= 0 && w'.tasks == [] && ShowsItsWindow(w'.display)
            && w'.remote == w.remote[..last] + [RemoteMessage(w.display.messageId, Window(w.display))]
  {
    EditIsShown(w1, w.display.messageId.value, Window(w.display));
  }

  /** While the text streams and an edit is due, the live message is brought up to date: the request and
      the completed edit leave the window in the last message of the channel and touch no other. */
  lemma {:induction false} DueEditBringsUpToDate(w: World, due: bool)
    requires IsToEdit(w) && (due || w.display.finalized)
    ensures var w' := Run(w, [Kick(due), EditDone(0, Edited)]);
            var last := |w.remote| - 1;
            && last >= 0 && w'.tasks == [] && ShowsItsWindow(w'.display)
            && w'.remote == w.remote[..last] + [RemoteMessage(w.display.messageId, Window(w.display))]
  {
    var w1 := Step(w, Kick(due));
    EditIsStartedIff(w, due);
    KickKeepsInv(w, due);
    TwoSteps(w, Kick(due), EditDone(0, Edited));
    EditedShowsItsWindow(w, w1);
  }

  lemma {:induction false} TwoSteps(w: World, first: Event, second: Event)
    ensures Run(w, [first, second]) == Step(Step(w, first), second)
  {
    assert [first, second][1..] == [second] && [second][1..] == [];
    assert Run(Step(Step(w, first), second), []) == Step(Step(w, first), second);
  }

  // ---------------------------------------------------------------------------------------------
  // Errors.

  predicate FailsWith(e: Event, error: string) {
    || (e.SendDone? && e.sent == SendFailed(error))
    || (e.EditDone? && e.edited == EditFailed(error))
  }

  predicate FailedWith(events: seq<Event>, error: string) {
    exists i :: 0 <= i < |events| && FailsWith(events[i], error)
  }

  /** A send or an edit that fails ends the display's activity and its error is kept. */
  lemma {:induction false} FailureIsRecorded(w: World, e: Event, error: string)
    requires Inv(w) && Enabled(w, e) && FailsWith(e, error)
    ensures var w' := Step(w, e);
            && w'.display == w.display.(sendInFlight := false, editInFlight := false, terminalFailure := true,
                                        errorMessage := Some(error))
            && w'.tasks == [] && w'.remote == w.remote
  {
  }

  lemma {:induction false} ErrorsAreFailures(w: World, e: Event)
    requires Inv(w)
    ensures var d, d' := w.display, Step(w, e).display;
            d'.errorMessage.Some? ==> d'.errorMessage == d.errorMessage || FailsWith(e, d'.errorMessage.value)
  {
    if e.Kick? {
      ActiveIsTheWindow(w.display);
    }
  }

  /** The error that is kept is that of a send or an edit which has failed. */
  lemma {:induction false} ErrorIsOfAFailure(limit: Option<nat>, events: seq<Event>)
    ensures var d := Run(InitialWorld(limit), events).display;
            d.errorMessage.Some? ==> FailedWith(events, d.errorMessage.value)
  {
    assert Inv(InitialWorld(limit)) by {
      ReachableStatesAreSound(limit, []);
    }
    LaterErrorIsOfAFailure(InitialWorld(limit), events);
  }

  lemma {:induction false} LaterErrorIsOfAFailure(w: World, events: seq<Event>)
    requires Inv(w)
    ensures var d := Run(w, events).display;
            d.errorMessage.Some? ==>
              d.errorMessage == w.display.errorMessage || FailedWith(events, d.errorMessage.value)
    decreases |events|
  {
    if events != [] {
      var d := Run(w, events).display;
      StepKeepsInv(w, events[0]);
      LaterErrorIsOfAFailure(Step(w, events[0]), events[1..]);
      ErrorsAreFailures(w, events[0]);
      if d.errorMessage.Some? && FailedWith(events[1..], d.errorMessage.value) {
        var i :| 0 <= i < |events[1..]| && FailsWith(events[1..][i], d.errorMessage.value);
        assert FailsWith(events[i + 1], d.errorMessage.value);
      } else if d.errorMessage.Some? && FailsWith(events[0], d.errorMessage.value) {
        assert FailedWith(events, d.errorMessage.value);
      }
    }
  }
}
