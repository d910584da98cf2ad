/** How workers end: why, and what is left of them in the table. */
module SessionWorkersExit {
  import opened SessionWorkers
  import opened SessionWorkersTheorems

  predicate HasEnded(phase: Phase) {
    phase.Leaving? || phase.Left? || phase.Gone?
  }

  /** The event that can be the reason. */
  function EndingMove(reason: Reason): Move {
    match reason
    case IdledOut => IdleOut
    case AllSendersGone => NoSenders
    case Panicked => Panic
  }

  predicate Happened(events: seq<Event>, e: Event) {
    exists i :: 0 <= i < |events| && events[i] == e
  }

  predicate EndIsExplained(events: seq<Event>, id: WorkerId, worker: Worker) {
    HasEnded(worker.phase) ==> Happened(events, Work(id, EndingMove(worker.phase.reason)))
  }

  /** A worker that ended in order is not in the table any more: only one that panicked can be. */
  predicate IsTakenOut(c: Coordinator, id: WorkerId) {
    id in c.tasks && (c.tasks[id].phase.Left? || (c.tasks[id].phase.Gone? && c.tasks[id].phase.reason != Panicked)) ==>
      !(c.tasks[id].key in c.workers && c.workers[c.tasks[id].key] == id)
  }

  predicate AllTakenOut(c: Coordinator) {
    forall id <- c.tasks :: IsTakenOut(c, id)
  }

  /** A worker in order has not panicked yet. */
  predicate NoneLeavesInPanic(c: Coordinator) {
    forall id <- c.tasks :: c.tasks[id].phase.Leaving? || c.tasks[id].phase.Left? ==>
      c.tasks[id].phase.reason != Panicked
  }

  lemma {:induction false} MovedEnds(worker: Worker, move: Move)
    ensures var moved := Moved(worker, move);
            HasEnded(moved.phase) && !(HasEnded(worker.phase) && worker.phase.reason == moved.phase.reason) ==>
              move == EndingMove(moved.phase.reason)
    ensures HasEnded(worker.phase) ==>
              HasEnded(Moved(worker, move).phase) && Moved(worker, move).phase.reason == worker.phase.reason
  {
  }

  lemma {:induction false} HappenedBefore(before: seq<Event>, e: Event, x: Event)
    requires Happened(before, x) || e == x
    ensures Happened(before + [e], x)
  {
    if e == x {
      assert (before + [e])[|before|] == x;
    } else {
      var i :| 0 <= i < |before| && before[i] == x;
      assert (before + [e])[i] == x;
    }
  }

  lemma {:induction false} StepExplainsEnds(before: seq<Event>, w: World, e: Event)
    requires TableIsSound(w) && forall id <- w.c.tasks :: EndIsExplained(before, id, w.c.tasks[id])
    ensures forall id <- Step(w, e).c.tasks :: EndIsExplained(before + [e], id, Step(w, e).c.tasks[id])
  {
    var w' := Step(w, e);
    forall id <- w'.c.tasks | HasEnded(w'.c.tasks[id].phase)
      ensures Happened(before + [e], Work(id, EndingMove(w'.c.tasks[id].phase.reason)))
    {
      EndOfStep(before, w, e, id);
      HappenedBefore(before, e, Work(id, EndingMove(w'.c.tasks[id].phase.reason)));
    }
  }

  lemma {:induction false} EndOfStep(before: seq<Event>, w: World, e: Event, id: WorkerId)
    requires TableIsSound(w) && forall other <- w.c.tasks :: EndIsExplained(before, other, w.c.tasks[other])
    requires id in Step(w, e).c.tasks && HasEnded(Step(w, e).c.tasks[id].phase)
    ensures var x := Work(id, EndingMove(Step(w, e).c.tasks[id].phase.reason)); Happened(before, x) || e == x
  {
    if Enabled(w, e) {
      if e.Work? {
        WorkShape(w, e.worker, e.move);
        MovedEnds(w.c.tasks[e.worker], e.move);
        assert EndIsExplained(before, id, w.c.tasks[id]);
      } else if e.Advance? && w.dispatches[e.dispatch].phase.Send? {
        AcceptedSendStep(w, e.dispatch);
        assert EndIsExplained(before, id, w.c.tasks[id]);
      } else {
        OtherStepShape(w, e);
        assert id in w.c.tasks && EndIsExplained(before, id, w.c.tasks[id]);
      }
    } else {
      assert EndIsExplained(before, id, w.c.tasks[id]);
    }
  }

  /** The whole change of the coordinator by one event, as far as the table is concerned. */
  lemma {:induction false} StepTakesOut(w: World, e: Event)
    requires TableIsSound(w) && AllTakenOut(w.c) && NoneLeavesInPanic(w.c)
    ensures AllTakenOut(Step(w, e).c) && NoneLeavesInPanic(Step(w, e).c)
  {
    if Enabled(w, e) {
      match e
      case BeginDispatch(_, _) =>
      case Advance(d) => AdvanceTakesOut(w, d);
      case Work(id, move) => WorkTakesOut(w, id, move);
      case Remove(key) => RemovalTakesOut(w.c, key);
    }
  }

  lemma {:induction false} RemovalTakesOut(c: Coordinator, key: Key)
    requires AllTakenOut(c) && NoneLeavesInPanic(c)
    ensures AllTakenOut(RemoveKey(c, key)) && NoneLeavesInPanic(RemoveKey(c, key))
  {
    forall id <- c.tasks
      ensures IsTakenOut(RemoveKey(c, key), id)
    {
      assert IsTakenOut(c, id);
    }
  }

  lemma {:induction false} AdvanceTakesOut(w: World, d: DispatchId)
    requires TableIsSound(w) && AllTakenOut(w.c) && NoneLeavesInPanic(w.c) && d in w.dispatches
    ensures AllTakenOut(Step(w, Advance(d)).c) && NoneLeavesInPanic(Step(w, Advance(d)).c)
  {
    var c, c' := w.c, Step(w, Advance(d)).c;
    forall id <- c'.tasks
      ensures IsTakenOut(c', id)
      ensures c'.tasks[id].phase.Leaving? || c'.tasks[id].phase.Left? ==> c'.tasks[id].phase.reason != Panicked
    {
      if id in c.tasks {
        assert IsTakenOut(c, id);
      }
    }
  }

  lemma {:induction false} WorkTakesOut(w: World, id: WorkerId, move: Move)
    requires TableIsSound(w) && AllTakenOut(w.c) && NoneLeavesInPanic(w.c) && Enabled(w, Work(id, move))
    ensures AllTakenOut(Step(w, Work(id, move)).c) && NoneLeavesInPanic(Step(w, Work(id, move)).c)
  {
    var c, c' := w.c, Step(w, Work(id, move)).c;
    WorkShape(w, id, move);
    forall other <- c'.tasks
      ensures IsTakenOut(c', other)
    {
      assert IsTakenOut(c, other);
    }
  }

  lemma {:induction false} RunTellsOfEnds(before: seq<Event>, w: World, events: seq<Event>)
    requires TableIsSound(w) && AllTakenOut(w.c) && NoneLeavesInPanic(w.c)
    requires forall id <- w.c.tasks :: EndIsExplained(before, id, w.c.tasks[id])
    ensures var w' := Run(w, events);
            && AllTakenOut(w'.c) && NoneLeavesInPanic(w'.c)
            && forall id <- w'.c.tasks :: EndIsExplained(before + events, id, w'.c.tasks[id])
    decreases |events|
  {
    if events == [] {
      assert before + events == before;
    } else {
      StepKeepsTable(w, events[0]);
      StepTakesOut(w, events[0]);
      StepExplainsEnds(before, w, events[0]);
      RunTellsOfEnds(before + [events[0]], Step(w, events[0]), events[1..]);
      assert before + [events[0]] + events[1..] == before + events;
    }
  }

  /** In every execution, a worker ends for the reason it gives: it idled out, its senders were gone, or its
      handler panicked. When it ended in order, the table does not name it from then on, so that the next
      dispatch finds another; only a worker that panicked can still be named. */
  lemma {:induction false} WorkersEndInOrder(events: seq<Event>, id: WorkerId)
    requires id in Run(EMPTY, events).c.tasks && HasEnded(Run(EMPTY, events).c.tasks[id].phase)
    ensures var c := Run(EMPTY, events).c;
            && Happened(events, Work(id, EndingMove(c.tasks[id].phase.reason)))
            && (c.tasks[id].key in c.workers && c.workers[c.tasks[id].key] == id ==>
                  c.tasks[id].phase.Leaving? || c.tasks[id].phase == Gone(Panicked))
  {
    RunTellsOfEnds([], EMPTY, events);
    assert [] + events == events;
    var c := Run(EMPTY, events).c;
    assert IsTakenOut(c, id) && EndIsExplained(events, id, c.tasks[id]);
  }

  /** A worker without a sender ends exactly when its queue is empty: what was accepted before is handled. */
  lemma {:induction false} WorkerWithoutSendersDrainsItsQueue(w: World, id: WorkerId)
    requires Enabled(w, Work(id, NoSenders)) && w.c.tasks[id].phase.Receiving?
    ensures var w' := Step(w, Work(id, NoSenders));
            && (HasEnded(w'.c.tasks[id].phase) <==> w.c.tasks[id].queue == [])
            && (w.c.tasks[id].queue == [] ==> w'.c.tasks[id].phase == Leaving(AllSendersGone))
            && (w.c.tasks[id].queue != [] ==> w'.c == w.c)
  {
    WorkShape(w, id, NoSenders);
    assert w.c.tasks[id := w.c.tasks[id]] == w.c.tasks;
  }

  /** On its way out a worker takes its name out of the table first and drops its receiver, and what is
      still queued, last. */
  lemma {:induction false} LeavingWorkerGoes(w: World, id: WorkerId)
    requires id in w.c.tasks && w.c.tasks[id].phase.Leaving?
    ensures var worker, key := w.c.tasks[id], w.c.tasks[id].key;
            var w1 := Step(w, Work(id, TakeOut));
            var w2 := Step(w1, Work(id, DropReceiver));
            && w1.c.tasks == w.c.tasks[id := worker.(phase := Left(worker.phase.reason))]
            && w1.c.workers == (if key in w.c.workers && w.c.workers[key] == id then w.c.workers - {key}
                                else w.c.workers)
            && w2.c.workers == w1.c.workers
            && w2.c.tasks
               == w.c.tasks[id := worker.(phase := Gone(worker.phase.reason), queue := [], discarded := worker.queue)]
  {
    WorkShape(w, id, TakeOut);
    WorkShape(Step(w, Work(id, TakeOut)), id, DropReceiver);
  }
}
