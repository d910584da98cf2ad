/** Session workers: one task per session key drains a queue of messages. Every function on
    `Coordinator` is one locked section or one channel operation; dispatchers, workers and removers
    interleave freely between them. */
module SessionWorkers {

  type Key = string
  type WorkerId = nat
  type DispatchId = nat
  /** A message, named by its place in the order in which its key's messages were accepted. */
  type Ticket = nat

  datatype Reason = IdledOut | AllSendersGone | Panicked

  /** A worker's receiver is open until the task is gone: also while the task is on its way out. */
  datatype Phase =
    | Receiving
    | Handling(message: Ticket)
    | Leaving(reason: Reason)    // the loop has ended, the table has not been looked at yet
    | Left(reason: Reason)       // the table is done with, the receiver is not dropped yet
    | Gone(reason: Reason)

  datatype Worker = Worker(
    key: Key,
    phase: Phase,
    queue: seq<Ticket>,
    finished: seq<Ticket>,
    crashed: seq<Ticket>,
    discarded: seq<Ticket>)

  datatype Coordinator = Coordinator(workers: map<Key, WorkerId>, nextWorkerId: nat, tasks: map<WorkerId, Worker>)

  predicate CanHandle(worker: Worker) {
    worker.phase.Receiving? || worker.phase.Handling?
  }

  /** `worker_sender_for_key` */
  function SenderForKey(c: Coordinator, key: Key): (Coordinator, WorkerId) {
    if key in c.workers then (c, c.workers[key])
    else
      var id := c.nextWorkerId;
      (Coordinator(c.workers[key := id], id + 1, c.tasks[id := Worker(key, Receiving, [], [], [], [])]), id)
  }

  /** `tx.send`: fails only when the receiver has been dropped. */
  function TrySend(c: Coordinator, id: WorkerId, message: Ticket): (Coordinator, bool) {
    if id in c.tasks && !c.tasks[id].phase.Gone? then
      (c.(tasks := c.tasks[id := c.tasks[id].(queue := c.tasks[id].queue + [message])]), true)
    else (c, false)
  }

  /** `remove_worker_if_matches`, and the last section of the worker task */
  function RemoveIfMatches(c: Coordinator, key: Key, id: WorkerId): Coordinator {
    if key in c.workers && c.workers[key] == id then c.(workers := c.workers - {key}) else c
  }

  /** `remove` */
  function RemoveKey(c: Coordinator, key: Key): Coordinator {
    c.(workers := c.workers - {key})
  }

  /** The steps of a worker task. A handler may panic, which drops the receiver at once. */
  datatype Move = Receive | Finish | IdleOut | NoSenders | Panic | TakeOut | DropReceiver

  function Moved(worker: Worker, move: Move): Worker {
    match (worker.phase, move)
    case (Receiving, Receive) =>
      if worker.queue == [] then worker
      else worker.(phase := Handling(worker.queue[0]), queue := worker.queue[1..])
    case (Handling(message), Finish) => worker.(phase := Receiving, finished := worker.finished + [message])
    case (Receiving, IdleOut) => worker.(phase := Leaving(IdledOut))
    case (Receiving, NoSenders) => if worker.queue == [] then worker.(phase := Leaving(AllSendersGone)) else worker
    case (Handling(message), Panic) =>
      worker.(phase := Gone(Panicked), crashed := [message], queue := [], discarded := worker.queue)
    case (Leaving(reason), TakeOut) => worker.(phase := Left(reason))
    case (Left(reason), DropReceiver) => worker.(phase := Gone(reason), queue := [], discarded := worker.queue)
    case _ => worker
  }

  function MoveWorker(c: Coordinator, id: WorkerId, move: Move): Coordinator {
    if id !in c.tasks then c
    else
      var worker := c.tasks[id];
      var moved := c.(tasks := c.tasks[id := Moved(worker, move)]);
      if worker.phase.Leaving? && move == TakeOut then RemoveIfMatches(moved, worker.key, id) else moved
  }

  // ---------------------------------------------------------------------------------------------
  // Dispatch: two attempts, each a look-up, a send, and on failure a removal.

  datatype DispatchPhase =
    | LookUp(attempt: nat)
    | Send(attempt: nat, worker: WorkerId)
    | CleanUp(attempt: nat, worker: WorkerId)
    | Accepted(ticket: Ticket)
    | Dropped

  datatype Dispatch = Dispatch(key: Key, phase: DispatchPhase)

  /** One step of a dispatch, `ticket` being the place its message would get. */
  function AdvanceDispatch(c: Coordinator, d: Dispatch, ticket: Ticket): (Coordinator, Dispatch) {
    match d.phase
    case LookUp(attempt) =>
      var (c', id) := SenderForKey(c, d.key);
      (c', d.(phase := Send(attempt, id)))
    case Send(attempt, id) =>
      var (c', ok) := TrySend(c, id, ticket);
      (c', d.(phase := if ok then Accepted(ticket) else CleanUp(attempt, id)))
    case CleanUp(attempt, id) =>
      (RemoveIfMatches(c, d.key, id), d.(phase := if attempt == 1 then Dropped else LookUp(attempt + 1)))
    case _ => (c, d)
  }

  // ---------------------------------------------------------------------------------------------
  // Whole executions, with the history of what was accepted and what was handled.

  datatype Receipt = Receipt(dispatch: DispatchId, worker: WorkerId)

  datatype World = World(
    c: Coordinator,
    dispatches: map<DispatchId, Dispatch>,
    sent: map<Key, seq<Receipt>>,
    handled: map<Key, seq<Ticket>>)

  datatype Event =
    | BeginDispatch(dispatch: DispatchId, key: Key)
    | Advance(dispatch: DispatchId)
    | Work(worker: WorkerId, move: Move)
    | Remove(key: Key)

  const EMPTY: World := World(Coordinator(map[], 1, map[]), map[], map[], map[])

  function SentOf(w: World, key: Key): seq<Receipt> {
    if key in w.sent then w.sent[key] else []
  }

  function HandledOf(w: World, key: Key): seq<Ticket> {
    if key in w.handled then w.handled[key] else []
  }

  /** A receiver learns that all senders are gone only if the table and no dispatcher holds one. */
  predicate HasSender(w: World, id: WorkerId) {
    || (id in w.c.tasks && w.c.tasks[id].key in w.c.workers && w.c.workers[w.c.tasks[id].key] == id)
    || (exists d <- w.dispatches :: w.dispatches[d].phase.Send? && w.dispatches[d].phase.worker == id)
  }

  predicate Enabled(w: World, e: Event) {
    match e
    case BeginDispatch(d, _) => d !in w.dispatches
    case Advance(d) => d in w.dispatches
    case Work(id, move) => id in w.c.tasks && (move == NoSenders ==> !HasSender(w, id))
    case Remove(_) => true
  }

  function Step(w: World, e: Event): World {
    if !Enabled(w, e) then w
    else
      match e
      case BeginDispatch(d, key) => w.(dispatches := w.dispatches[d := Dispatch(key, LookUp(0))])
      case Advance(d) =>
        var before := w.dispatches[d];
        var (c, after) := AdvanceDispatch(w.c, before, |SentOf(w, before.key)|);
        w.(c := c, dispatches := w.dispatches[d := after],
           sent := if before.phase.Send? && after.phase.Accepted?
                   then w.sent[before.key := SentOf(w, before.key) + [Receipt(d, before.phase.worker)]]
                   else w.sent)
      case Work(id, move) =>
        var worker := w.c.tasks[id];
        w.(c := MoveWorker(w.c, id, move),
           handled := if worker.phase.Handling? && move == Finish
                      then w.handled[worker.key := HandledOf(w, worker.key) + [worker.phase.message]]
                      else w.handled)
      case Remove(key) => w.(c := RemoveKey(w.c, key))
  }

  function Run(w: World, events: seq<Event>): World
    decreases |events|
  {
    if events == [] then w else Run(Step(w, events[0]), events[1..])
  }
}
