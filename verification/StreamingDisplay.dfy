/** The streaming display: growing model output shown as a chain of chat messages, each of at most
    `channelLimit` characters, kept up to date by one send and some edits per message.

    Every function on `Display` below is one section of code that runs under the display's mutex.
    Spawned tasks finish in any order relative to everything else, so a whole execution is a
    sequence of events, each of which is one such section. The clock only decides whether an edit
    is due, so it is a boolean chosen freely. */
module StreamingDisplay {
  import opened Options
  import opened StreamingSegments

  type MessageId = string

  datatype Display = Display(
    channelLimit: Option<nat>,
    latestContent: string,
    committedPrefixChars: nat,
    displayedSegment: Option<string>,
    messageId: Option<MessageId>,
    initialSendAttempted: bool,
    sendInFlight: bool,
    editInFlight: bool,
    finalized: bool,
    terminalFailure: bool,
    errorMessage: Option<string>)

  datatype Action = SendInitial(content: string) | Edit(messageId: MessageId, content: string)

  datatype SendResult = SentWithId(id: MessageId) | SentWithoutId | SendFailed(error: string)

  datatype EditResult = Edited | EditFailed(error: string)

  datatype Verdict = Continue | ReturnOk | ReturnErr(error: string) | PlainSend

  function InitialDisplay(limit: Option<nat>): Display {
    Display(limit, "", 0, None, None, false, false, false, false, false, None)
  }

  function Active(d: Display): Option<Segment> {
    ActiveStreamingSegment(d.latestContent, d.committedPrefixChars, d.channelLimit)
  }

  function TryRollover(d: Display): (Display, bool) {
    if d.sendInFlight || d.editInFlight || d.terminalFailure then (d, false)
    else
      match Active(d)
      case None => (d, false)
      case Some(segment) =>
        if !segment.hasOverflow || d.displayedSegment != Some(segment.content) then
          (d, false)
        else
          (d.(committedPrefixChars := d.committedPrefixChars + segment.visibleChars,
              displayedSegment := None,
              messageId := None,
              initialSendAttempted := false,
              errorMessage := None), true)
  }

  function NextAction(d0: Display, editDue: bool): (Display, Option<Action>) {
    if d0.terminalFailure || d0.latestContent == "" then (d0, None)
    else
      var d := TryRollover(d0).0;
      match Active(d)
      case None => (d, None)
      case Some(segment) =>
        if d.messageId.None? then
          if d.sendInFlight || d.displayedSegment.Some? || d.initialSendAttempted then (d, None)
          else (d.(initialSendAttempted := true, sendInFlight := true), Some(SendInitial(segment.content)))
        else if d.editInFlight then (d, None)
        else if d.displayedSegment == Some(segment.content) then (d, None)
        else if !d.finalized && !editDue then (d, None)
        else (d.(editInFlight := true), Some(Edit(d.messageId.value, segment.content)))
  }

  function CompleteSend(d: Display, content: string, result: SendResult): Display {
    var idle := d.(sendInFlight := false);
    match result
    case SentWithId(id) => idle.(messageId := Some(id), displayedSegment := Some(content), errorMessage := None)
    case SentWithoutId => idle.(displayedSegment := Some(content), errorMessage := None)
    case SendFailed(error) => idle.(errorMessage := Some(error), terminalFailure := true)
  }

  function CompleteEdit(d: Display, content: string, result: EditResult): Display {
    var idle := d.(editInFlight := false);
    match result
    case Edited => idle.(displayedSegment := Some(content), errorMessage := None)
    case EditFailed(error) => idle.(errorMessage := Some(error), terminalFailure := true)
  }

  /** One turn of the finalizer's polling loop, `content` being the final text it was given. */
  function Poll(d: Display, content: string): Verdict {
    var idle := !d.sendInFlight && !d.editInFlight;
    var shown := d.messageId.Some? || d.displayedSegment.Some? || d.committedPrefixChars > 0;
    var active := Active(d);
    if idle && d.terminalFailure && d.errorMessage.Some? && shown then
      ReturnErr(d.errorMessage.value)
    else if idle && d.committedPrefixChars == |content| then
      ReturnOk
    else if && idle
            && active.Some? && d.displayedSegment == Some(active.value.content)
            && d.committedPrefixChars + active.value.visibleChars == |content| then
      ReturnOk
    else if idle && d.messageId.None? && d.displayedSegment.None? then
      PlainSend
    else
      Continue
  }

  // ---------------------------------------------------------------------------------------------
  // Whole executions: the display together with the spawned tasks and the chat channel.

  /** A message the channel accepted, in the order of acceptance. */
  datatype RemoteMessage = RemoteMessage(id: Option<MessageId>, text: string)

  datatype World = World(display: Display, tasks: seq<Action>, remote: seq<RemoteMessage>)

  datatype Event =
    | Update(content: string)              // the model produced more text
    | BeginFinalize(content: string)       // the turn is over, this is the whole reply
    | Kick(editDue: bool)                  // somebody asks for the next action
    | SendDone(task: nat, sent: SendResult)
    | EditDone(task: nat, edited: EditResult)

  function InitialWorld(limit: Option<nat>): World {
    World(InitialDisplay(limit), [], [])
  }

  function WithoutTask(tasks: seq<Action>, i: nat): seq<Action>
    requires i < |tasks|
  {
    tasks[..i] + tasks[i + 1..]
  }

  /** The channel replaces the text of the message that carries the given id. */
  function EditRemote(remote: seq<RemoteMessage>, id: MessageId, text: string): (edited: seq<RemoteMessage>)
    ensures |edited| == |remote|
  {
    seq(|remote|, i requires 0 <= i < |remote| =>
      if remote[i].id == Some(id) then remote[i].(text := text) else remote[i])
  }

  /** Only a running task can finish, and the channel never hands out an id twice. */
  predicate Enabled(w: World, e: Event) {
    match e
    case SendDone(i, sent) =>
      && i < |w.tasks| && w.tasks[i].SendInitial?
      && (sent.SentWithId? ==> forall k :: 0 <= k < |w.remote| ==> w.remote[k].id != Some(sent.id))
    case EditDone(i, _) => i < |w.tasks| && w.tasks[i].Edit?
    case _ => true
  }

  function Step(w: World, e: Event): World {
    if !Enabled(w, e) then w
    else
      match e
      case Update(content) => w.(display := w.display.(latestContent := content))
      case BeginFinalize(content) => w.(display := w.display.(latestContent := content, finalized := true))
      case Kick(editDue) =>
        var (d, action) := NextAction(w.display, editDue);
        w.(display := d, tasks := if action.Some? then w.tasks + [action.value] else w.tasks)
      case SendDone(i, sent) =>
        var content := w.tasks[i].content;
        World(CompleteSend(w.display, content, sent),
              WithoutTask(w.tasks, i),
              match sent
              case SentWithId(id) => w.remote + [RemoteMessage(Some(id), content)]
              case SentWithoutId => w.remote + [RemoteMessage(None, content)]
              case SendFailed(_) => w.remote)
      case EditDone(i, edited) =>
        var action := w.tasks[i];
        World(CompleteEdit(w.display, action.content, edited),
              WithoutTask(w.tasks, i),
              if edited.Edited? then EditRemote(w.remote, action.messageId, action.content) else w.remote)
  }

  function Run(w: World, events: seq<Event>): World
    decreases |events|
  {
    if events == [] then w else Run(Step(w, events[0]), events[1..])
  }

  /** What still happens once the turn is over: completions, and the kicks that follow them. */
  predicate IsTaskEvent(e: Event) {
    e.Kick? || e.SendDone? || e.EditDone?
  }

  predicate OnlyTaskEvents(events: seq<Event>) {
    forall i :: 0 <= i < |events| ==> IsTaskEvent(events[i])
  }

  /** What the other tasks do between two polls: before and after the finalizer's own kick. */
  datatype Round = Round(before: seq<Event>, after: seq<Event>)

  function KickIn(w: World, round: Round): World {
    Step(Run(w, round.before), Kick(false))
  }

  function RunRound(w: World, round: Round): World {
    Run(KickIn(w, round), round.after)
  }

  predicate OnlyTasksIn(round: Round) {
    OnlyTaskEvents(round.before) && OnlyTaskEvents(round.after)
  }

  predicate OnlyTaskRounds(schedule: seq<Round>) {
    forall i :: 0 <= i < |schedule| ==> OnlyTasksIn(schedule[i])
  }

  /** The polling loop. `schedule[k]` is what happens between two polls; the verdict is Continue when
      the schedule ends before the loop does. */
  function FinalizeLoop(w: World, content: string, schedule: seq<Round>): (World, Verdict)
    decreases |schedule|
  {
    var verdict := Poll(w.display, content);
    if verdict != Continue || schedule == [] then (w, verdict)
    else FinalizeLoop(RunRound(w, schedule[0]), content, schedule[1..])
  }

  /** `start` is what the other tasks do from the time the text is final to the first poll. */
  function Finalize(w: World, content: string, start: Round, schedule: seq<Round>): (World, Verdict) {
    FinalizeLoop(RunRound(Step(w, BeginFinalize(content)), start), content, schedule)
  }

  // ---------------------------------------------------------------------------------------------
  // What holds in every reachable state, whatever the text does and whatever fails.

  function TextOf(messages: seq<RemoteMessage>): string {
    if messages == [] then "" else TextOf(messages[..|messages| - 1]) + messages[|messages| - 1].text
  }

  /** The messages that no later edit can reach: all but the one that shows `displayedSegment`. */
  function Frozen(w: World): seq<RemoteMessage> {
    if w.display.displayedSegment.Some? && w.remote != [] then w.remote[..|w.remote| - 1] else w.remote
  }

  predicate Fits(text: string, limit: Option<nat>) {
    limit.Some? ==> |text| <= limit.value
  }

  predicate IdsAreDistinct(remote: seq<RemoteMessage>) {
    forall i, j :: 0 <= i < j < |remote| && remote[i].id.Some? ==> remote[i].id != remote[j].id
  }

  /** At most one operation is running, the flags say which, and an edit is for the last message. */
  predicate TasksAreSound(w: World) {
    var d := w.display;
    && |w.tasks| <= 1
    && (d.sendInFlight <==> |w.tasks| == 1 && w.tasks[0].SendInitial?)
    && (d.editInFlight <==> |w.tasks| == 1 && w.tasks[0].Edit?)
    && (forall t <- w.tasks :: Fits(t.content, d.channelLimit))
    && (d.sendInFlight ==> d.displayedSegment.None? && d.messageId.None? && d.initialSendAttempted)
    && (d.editInFlight ==> d.messageId == Some(w.tasks[0].messageId))
  }

  /** The live message is the last one and shows `displayedSegment`. */
  predicate LiveIsSound(w: World) {
    var d := w.display;
    && (d.messageId.Some? ==> d.displayedSegment.Some?)
    && (d.displayedSegment.Some? ==>
          && d.initialSendAttempted
          && w.remote != []
          && w.remote[|w.remote| - 1] == RemoteMessage(d.messageId, d.displayedSegment.value)
          && Fits(d.displayedSegment.value, d.channelLimit))
    && IdsAreDistinct(w.remote)
  }

  /** Every frozen message is exactly full, and the committed prefix counts their characters. */
  predicate FrozenIsSound(w: World) {
    var limit := w.display.channelLimit;
    && (limit.None? ==> Frozen(w) == [])
    && (limit.Some? ==> forall m <- Frozen(w) :: |m.text| == limit.value)
    && |TextOf(Frozen(w))| == w.display.committedPrefixChars
  }

  /** A failure ends all activity, and nothing else leaves a message neither sent nor under way. */
  predicate FailureIsSound(w: World) {
    var d := w.display;
    && (d.terminalFailure ==> d.errorMessage.Some? && w.tasks == [])
    && (d.initialSendAttempted && d.displayedSegment.None? && !d.sendInFlight ==> d.terminalFailure)
    && (!d.initialSendAttempted ==> w.remote == [])
  }

  predicate Inv(w: World) {
    TasksAreSound(w) && LiveIsSound(w) && FrozenIsSound(w) && FailureIsSound(w)
  }
}
