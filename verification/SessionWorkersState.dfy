/** The coordinator as the code has it: a shared table and a counter updated in place, the worker
    tasks with their queues, and the dispatch loop, each method one locked section or channel
    operation proved against the function of the same name in `SessionWorkers`. */
module SessionWorkersState {
  import Spec = SessionWorkers

  type Key = Spec.Key
  type WorkerId = Spec.WorkerId

  class SessionWorkerCoordinator {
    var workers: map<Key, WorkerId>
    var nextWorkerId: nat
    var tasks: map<WorkerId, Spec.Worker>

    function Model(): Spec.Coordinator
      reads this
    {
      Spec.Coordinator(workers, nextWorkerId, tasks)
    }

    constructor ()
      ensures Model() == Spec.EMPTY.c
    {
      workers, nextWorkerId, tasks := map[], 1, map[];
    }

    /** `worker_sender_for_key` */
    method SenderForKey(key: Key) returns (id: WorkerId)
      modifies this
      ensures (Model(), id) == Spec.SenderForKey(old(Model()), key)
    {
      if key in workers {
        return workers[key];
      }
      id := nextWorkerId;
      nextWorkerId := nextWorkerId + 1;
      workers := workers[key := id];
      tasks := tasks[id := Spec.Worker(key, Spec.Receiving, [], [], [], [])];
    }

    method TrySend(id: WorkerId, message: Spec.Ticket) returns (ok: bool)
      modifies this
      ensures (Model(), ok) == Spec.TrySend(old(Model()), id, message)
    {
      ok := id in tasks && !tasks[id].phase.Gone?;
      if ok {
        var worker := tasks[id];
        tasks := tasks[id := worker.(queue := worker.queue + [message])];
      }
    }

    /** `remove_worker_if_matches` */
    method RemoveIfMatches(key: Key, id: WorkerId)
      modifies this
      ensures Model() == Spec.RemoveIfMatches(old(Model()), key, id)
    {
      if key in workers && workers[key] == id {
        workers := workers - {key};
      }
    }

    method Remove(key: Key)
      modifies this
      ensures Model() == Spec.RemoveKey(old(Model()), key)
    {
      workers := workers - {key};
    }

    /** One step of the worker task spawned by `spawn_worker`. */
    method Work(id: WorkerId, move: Spec.Move)
      requires id in tasks
      modifies this
      ensures Model() == Spec.MoveWorker(old(Model()), id, move)
    {
      var worker := tasks[id];
      match (worker.phase, move) {
        case (Receiving, Receive) =>
          if worker.queue != [] {
            worker := worker.(phase := Spec.Handling(worker.queue[0]), queue := worker.queue[1..]);
          }
        case (Handling(message), Finish) =>
          worker := worker.(phase := Spec.Receiving, finished := worker.finished + [message]);
        case (Receiving, IdleOut) =>
          worker := worker.(phase := Spec.Leaving(Spec.IdledOut));
        case (Receiving, NoSenders) =>
          if worker.queue == [] {
            worker := worker.(phase := Spec.Leaving(Spec.AllSendersGone));
          }
        case (Handling(message), Panic) =>
          worker := worker.(phase := Spec.Gone(Spec.Panicked), crashed := [message], queue := [], discarded :=
              worker.queue);
        case (Leaving(reason), TakeOut) =>
          RemoveIfMatches(worker.key, id);
          worker := worker.(phase := Spec.Left(reason));
        case (Left(reason), DropReceiver) =>
          worker := worker.(phase := Spec.Gone(reason), queue := [], discarded := worker.queue);
        case _ =>
      }
      tasks := tasks[id := worker];
    }
  }

  /** One call of `dispatch`, advanced by one step at a time. */
  class DispatchTask {
    var call: Spec.Dispatch

    constructor (key: Key)
      ensures call == Spec.Dispatch(key, Spec.LookUp(0))
    {
      call := Spec.Dispatch(key, Spec.LookUp(0));
    }

    method Advance(coordinator: SessionWorkerCoordinator, ticket: Spec.Ticket)
      modifies this, coordinator
      ensures (coordinator.Model(), call) == Spec.AdvanceDispatch(old(coordinator.Model()), old(call), ticket)
    {
      match call.phase {
        case LookUp(attempt) =>
          var id := coordinator.SenderForKey(call.key);
          call := call.(phase := Spec.Send(attempt, id));
        case Send(attempt, id) =>
          var ok := coordinator.TrySend(id, ticket);
          call := call.(phase := if ok then Spec.Accepted(ticket) else Spec.CleanUp(attempt, id));
        case CleanUp(attempt, id) =>
          coordinator.RemoveIfMatches(call.key, id);
          call := call.(phase := if attempt == 1 then Spec.Dropped else Spec.LookUp(attempt + 1));
        case _ =>
      }
    }
  }
}
