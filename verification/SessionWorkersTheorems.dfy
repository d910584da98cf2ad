/** What every interleaving of dispatches, worker steps and panics keeps. */
module SessionWorkersTheorems {
  import opened SessionWorkers

  // ---------------------------------------------------------------------------------------------
  // Bookkeeping that holds with or without explicit removal.

  predicate TableIsSound(w: World) {
    && (forall id <- w.c.tasks :: id < w.c.nextWorkerId)
    && (forall key <- w.c.workers :: w.c.workers[key] in w.c.tasks && w.c.tasks[w.c.workers[key]].key == key)
    && (forall d <- w.dispatches :: DispatchIsSound(w.c, w.dispatches[d]))
  }

  predicate DispatchIsSound(c: Coordinator, d: Dispatch) {
    match d.phase
    case Send(_, id) => id in c.tasks && c.tasks[id].key == d.key
    case CleanUp(_, id) => id in c.tasks && c.tasks[id].phase.Gone?
    case _ => true
  }

  /** Tasks never disappear from the record, keep their key, and stay gone. */
  predicate TasksGoOn(c: Coordinator, c': Coordinator) {
    && c.nextWorkerId <= c'.nextWorkerId
    && forall id <- c.tasks :: id in c'.tasks && c'.tasks[id].key == c.tasks[id].key
         && (c.tasks[id].phase.Gone? ==> c'.tasks[id].phase.Gone?)
  }

  lemma {:induction false} DispatchesStaySound(w: World, c': Coordinator)
    requires TableIsSound(w) && TasksGoOn(w.c, c')
    ensures forall d <- w.dispatches :: DispatchIsSound(c', w.dispatches[d])
  {
    forall d <- w.dispatches
      ensures DispatchIsSound(c', w.dispatches[d])
    {
      assert DispatchIsSound(w.c, w.dispatches[d]);
    }
  }

  lemma {:induction false} AdvanceKeepsTable(w: World, d: DispatchId)
    requires TableIsSound(w) && d in w.dispatches
    ensures TableIsSound(Step(w, Advance(d))) && TasksGoOn(w.c, Step(w, Advance(d)).c)
  {
    var before := w.dispatches[d];
    var (c', after) := AdvanceDispatch(w.c, before, |SentOf(w, before.key)|);
    assert DispatchIsSound(w.c, before);
    DispatchesStaySound(w, c');
    assert DispatchIsSound(c', after);
  }

  /** What a worker's step does to the coordinator. */
  lemma {:induction false} WorkShape(w: World, id: WorkerId, move: Move)
    requires Enabled(w, Work(id, move))
    ensures var w' := Step(w, Work(id, move));
            && w'.c.tasks == w.c.tasks[id := Moved(w.c.tasks[id], move)] && w'.c.nextWorkerId == w.c.nextWorkerId
            && w'.sent == w.sent && w'.dispatches == w.dispatches
            && (w'.c.workers == w.c.workers
                || (w.c.tasks[id].phase.Leaving?
                    && w'.c.workers == RemoveIfMatches(w.c, w.c.tasks[id].key, id).workers))
  {
  }

  lemma {:induction false} MovedGoesOn(worker: Worker, move: Move)
    ensures Moved(worker, move).key == worker.key
    ensures worker.phase.Gone? ==> Moved(worker, move).phase.Gone?
    ensures CanHandle(Moved(worker, move)) ==> CanHandle(worker)
  {
  }

  lemma {:induction false} WorkKeepsTable(w: World, id: WorkerId, move: Move)
    requires TableIsSound(w) && Enabled(w, Work(id, move))
    ensures TableIsSound(Step(w, Work(id, move))) && TasksGoOn(w.c, Step(w, Work(id, move)).c)
  {
    var w' := Step(w, Work(id, move));
    WorkShape(w, id, move);
    MovedGoesOn(w.c.tasks[id], move);
    DispatchesStaySound(w, w'.c);
  }

  lemma {:induction false} StepKeepsTable(w: World, e: Event)
    requires TableIsSound(w)
    ensures TableIsSound(Step(w, e)) && TasksGoOn(w.c, Step(w, e).c)
  {
    if Enabled(w, e) {
      match e
      case BeginDispatch(_, _) =>
      case Advance(d) => AdvanceKeepsTable(w, d);
      case Work(id, move) => WorkKeepsTable(w, id, move);
      case Remove(key) => DispatchesStaySound(w, RemoveKey(w.c, key));
    }
  }

  // ---------------------------------------------------------------------------------------------
  // One worker per key.

  /** A worker that can still handle messages is the one its key's table entry names. */
  predicate OneWorkerPerKey(c: Coordinator) {
    forall id <- c.tasks :: CanHandle(c.tasks[id]) ==> c.tasks[id].key in c.workers && c.workers[c.tasks[id].key] == id
  }

  lemma {:induction false} StepKeepsOneWorker(w: World, e: Event)
    requires TableIsSound(w) && OneWorkerPerKey(w.c) && !e.Remove?
    ensures OneWorkerPerKey(Step(w, e).c)
  {
    if Enabled(w, e) {
      match e
      case BeginDispatch(_, _) =>
      case Advance(d) => AdvanceKeepsOneWorker(w.c, w.dispatches[d], |SentOf(w, w.dispatches[d].key)|, w);
      case Work(id, move) =>
        WorkShape(w, id, move);
        MovedGoesOn(w.c.tasks[id], move);
    }
  }

  lemma {:induction false} AdvanceKeepsOneWorker(c: Coordinator, d: Dispatch, ticket: Ticket, w: World)
    requires w.c == c && TableIsSound(w) && OneWorkerPerKey(c) && DispatchIsSound(c, d)
    ensures OneWorkerPerKey(AdvanceDispatch(c, d, ticket).0)
  {
  }

  /** The worker that the removal takes out of the table, if any, cannot handle messages any more. */
  predicate RemovesNoLiveWorker(c: Coordinator, key: Key) {
    key in c.workers && c.workers[key] in c.tasks ==> !CanHandle(c.tasks[c.workers[key]])
  }

  /** An explicit removal keeps this if and only if the key's worker cannot handle messages any more. */
  lemma {:induction false} RemoveKeepsOneWorkerIff(c: Coordinator, key: Key)
    requires OneWorkerPerKey(c)
    requires key in c.workers ==> c.workers[key] in c.tasks && c.tasks[c.workers[key]].key == key
    ensures OneWorkerPerKey(RemoveKey(c, key)) <==> RemovesNoLiveWorker(c, key)
  {
  }

  // ---------------------------------------------------------------------------------------------
  // Where every accepted message is.

  function Current(worker: Worker): seq<Ticket> {
    if worker.phase.Handling? then [worker.phase.message] else []
  }

  /** Everything ever sent to a worker, in the order in which it came. */
  function Inbox(worker: Worker): seq<Ticket> {
    worker.finished + Current(worker) + worker.crashed + worker.queue + worker.discarded
  }

  predicate Increasing(s: seq<Ticket>) {
    forall i, j :: 0 <= i < j < |s| ==> s[i] < s[j]
  }

  /** Messages are lost only when the receiver is dropped, and one crashes its handler only in a panic. */
  predicate Tidy(worker: Worker) {
    if worker.phase.Gone? then worker.queue == [] && (worker.crashed != [] ==> worker.phase.reason == Panicked)
    else worker.crashed == [] && worker.discarded == []
  }

  lemma {:induction false} MoveKeepsInbox(worker: Worker, move: Move)
    requires Tidy(worker)
    ensures Tidy(Moved(worker, move)) && Inbox(Moved(worker, move)) == Inbox(worker)
    ensures Moved(worker, move).key == worker.key
  {
  }

  predicate InboxIsSound(worker: Worker, id: WorkerId, sent: seq<Receipt>) {
    && Tidy(worker) && Increasing(Inbox(worker))
    && forall i :: 0 <= i < |Inbox(worker)| ==> Inbox(worker)[i] < |sent| && sent[Inbox(worker)[i]].worker == id
  }

  predicate ReceiptIsSound(c: Coordinator, key: Key, ticket: Ticket, receipt: Receipt) {
    receipt.worker in c.tasks && c.tasks[receipt.worker].key == key && ticket in Inbox(c.tasks[receipt.worker])
  }

  predicate HistoryIsSound(w: World) {
    && (forall id <- w.c.tasks :: InboxIsSound(w.c.tasks[id], id, SentOf(w, w.c.tasks[id].key)))
    && (forall key <- w.sent :: forall p :: 0 <= p < |w.sent[key]| ==> ReceiptIsSound(w.c, key, p, w.sent[key][p]))
  }

  lemma {:induction false} InboxAfterSend(worker: Worker, id: WorkerId, sent: seq<Receipt>, d: DispatchId)
    requires InboxIsSound(worker, id, sent) && !worker.phase.Gone?
    ensures var worker' := worker.(queue := worker.queue + [|sent|]);
            Inbox(worker') == Inbox(worker) + [|sent|] && InboxIsSound(worker', id, sent + [Receipt(d, id)])
  {
    var worker' := worker.(queue := worker.queue + [|sent|]);
    assert Inbox(worker') == Inbox(worker) + [|sent|];
  }

  lemma {:induction false} InboxAfterOtherSend(worker: Worker, id: WorkerId, sent: seq<Receipt>, receipt: Receipt)
    requires InboxIsSound(worker, id, sent)
    ensures InboxIsSound(worker, id, sent + [receipt])
  {
  }

  /** What a successful send does to the whole state. */
  lemma {:induction false} AcceptedSendStep(w: World, d: DispatchId)
    requires d in w.dispatches && w.dispatches[d].phase.Send?
    ensures var id := w.dispatches[d].phase.worker;
            var key := w.dispatches[d].key;
            var n := |SentOf(w, key)|;
            var w' := Step(w, Advance(d));
            if id in w.c.tasks && !w.c.tasks[id].phase.Gone? then
              && w'.c.tasks == w.c.tasks[id := w.c.tasks[id].(queue := w.c.tasks[id].queue + [n])]
              && w'.c.workers == w.c.workers
              && w'.sent == w.sent[key := SentOf(w, key) + [Receipt(d, id)]]
              && w'.handled == w.handled
              && w'.dispatches == w.dispatches[d := Dispatch(key, Accepted(n))]
            else
              w'.c == w.c && w'.sent == w.sent && w'.handled == w.handled
              && w'.dispatches == w.dispatches[d := Dispatch(key, CleanUp(w.dispatches[d].phase.attempt, id))]
  {
  }

  lemma {:induction false} SendKeepsHistory(w: World, d: DispatchId)
    requires TableIsSound(w) && HistoryIsSound(w) && d in w.dispatches && w.dispatches[d].phase.Send?
    ensures HistoryIsSound(Step(w, Advance(d)))
  {
    var id := w.dispatches[d].phase.worker;
    var key := w.dispatches[d].key;
    var w' := Step(w, Advance(d));
    assert DispatchIsSound(w.c, w.dispatches[d]);
    AcceptedSendStep(w, d);
    if !w.c.tasks[id].phase.Gone? {
      var n := |SentOf(w, key)|;
      assert InboxIsSound(w.c.tasks[id], id, SentOf(w, key));
      InboxAfterSend(w.c.tasks[id], id, SentOf(w, key), d);
      forall other <- w'.c.tasks
        ensures InboxIsSound(w'.c.tasks[other], other, SentOf(w', w'.c.tasks[other].key))
      {
        assert InboxIsSound(w.c.tasks[other], other, SentOf(w, w.c.tasks[other].key));
        if other != id && w.c.tasks[other].key == key {
          InboxAfterOtherSend(w.c.tasks[other], other, SentOf(w, key), Receipt(d, id));
        }
      }
      forall k <- w'.sent, p | 0 <= p < |w'.sent[k]|
        ensures ReceiptIsSound(w'.c, k, p, w'.sent[k][p])
      {
        if !(k == key && p == n) {
          assert ReceiptIsSound(w.c, k, p, w.sent[k][p]);
        }
      }
    }
  }

  lemma {:induction false} SameInboxIsSound(worker: Worker, moved: Worker, id: WorkerId, sent: seq<Receipt>)
    requires InboxIsSound(worker, id, sent) && Tidy(moved) && Inbox(moved) == Inbox(worker)
    ensures InboxIsSound(moved, id, sent)
  {
  }

  lemma {:induction false} WorkKeepsHistory(w: World, id: WorkerId, move: Move)
    requires TableIsSound(w) && HistoryIsSound(w) && Enabled(w, Work(id, move))
    ensures HistoryIsSound(Step(w, Work(id, move)))
  {
    WorkShape(w, id, move);
    var w' := Step(w, Work(id, move));
    var worker := w.c.tasks[id];
    assert InboxIsSound(worker, id, SentOf(w, worker.key));
    MoveKeepsInbox(worker, move);
    SameInboxIsSound(worker, Moved(worker, move), id, SentOf(w, worker.key));
    forall k <- w'.sent, p | 0 <= p < |w'.sent[k]|
      ensures ReceiptIsSound(w'.c, k, p, w'.sent[k][p])
    {
      assert ReceiptIsSound(w.c, k, p, w.sent[k][p]);
    }
  }

  /** What the other steps do to the tasks: at most a new worker. */
  lemma {:induction false} OtherStepShape(w: World, e: Event)
    requires TableIsSound(w) && Enabled(w, e) && !e.Work?
    requires e.Advance? ==> !w.dispatches[e.dispatch].phase.Send?
    ensures var w' := Step(w, e);
            && w'.sent == w.sent && w'.handled == w.handled
            && (forall id <- w.c.tasks :: id in w'.c.tasks && w'.c.tasks[id] == w.c.tasks[id])
            && (forall id <- w'.c.tasks :: id !in w.c.tasks ==>
                  w'.c.tasks[id] == Worker(w'.c.tasks[id].key, Receiving, [], [], [], []))
  {
  }

  lemma {:induction false} OtherStepsKeepHistory(w: World, e: Event)
    requires TableIsSound(w) && HistoryIsSound(w) && Enabled(w, e) && !e.Work?
    requires e.Advance? ==> !w.dispatches[e.dispatch].phase.Send?
    ensures HistoryIsSound(Step(w, e))
  {
    OtherStepShape(w, e);
    var w' := Step(w, e);
    forall k <- w'.sent, p | 0 <= p < |w'.sent[k]|
      ensures ReceiptIsSound(w'.c, k, p, w'.sent[k][p])
    {
      assert ReceiptIsSound(w.c, k, p, w.sent[k][p]);
    }
    forall id <- w'.c.tasks
      ensures InboxIsSound(w'.c.tasks[id], id, SentOf(w', w'.c.tasks[id].key))
    {
      if id in w.c.tasks {
        assert InboxIsSound(w.c.tasks[id], id, SentOf(w, w.c.tasks[id].key));
      } else {
        assert Inbox(w'.c.tasks[id]) == [];
      }
    }
  }

  lemma {:induction false} StepKeepsHistory(w: World, e: Event)
    requires TableIsSound(w) && HistoryIsSound(w)
    ensures HistoryIsSound(Step(w, e))
  {
    if Enabled(w, e) {
      if e.Work? {
        WorkKeepsHistory(w, e.worker, e.move);
      } else if e.Advance? && w.dispatches[e.dispatch].phase.Send? {
        SendKeepsHistory(w, e.dispatch);
      } else {
        OtherStepsKeepHistory(w, e);
      }
    }
  }

  predicate DispatchOwnsReceipt(dispatches: map<DispatchId, Dispatch>, key: Key, ticket: Ticket, receipt: Receipt) {
    receipt.dispatch in dispatches && dispatches[receipt.dispatch] == Dispatch(key, Accepted(ticket))
  }

  predicate ReceiptOfDispatch(sent: seq<Receipt>, d: DispatchId, phase: DispatchPhase) {
    phase.Accepted? ==> phase.ticket < |sent| && sent[phase.ticket].dispatch == d
  }

  /** A dispatch reports success exactly when its message was accepted, and then it was once. */
  predicate ReceiptsAreUnique(w: World) {
    && (forall key <- w.sent :: forall p :: 0 <= p < |w.sent[key]| ==>
        DispatchOwnsReceipt(w.dispatches, key, p, w.sent[key][p]))
    && (forall d <- w.dispatches :: ReceiptOfDispatch(SentOf(w, w.dispatches[d].key), d, w.dispatches[d].phase))
  }

  lemma {:induction false} SendKeepsReceiptsUnique(w: World, d: DispatchId)
    requires ReceiptsAreUnique(w) && d in w.dispatches && w.dispatches[d].phase.Send?
    ensures ReceiptsAreUnique(Step(w, Advance(d)))
  {
    var w' := Step(w, Advance(d));
    AcceptedSendStep(w, d);
    forall k <- w'.sent, p | 0 <= p < |w'.sent[k]|
      ensures DispatchOwnsReceipt(w'.dispatches, k, p, w'.sent[k][p])
    {
      if k in w.sent && p < |w.sent[k]| {
        assert DispatchOwnsReceipt(w.dispatches, k, p, w.sent[k][p]);
      }
    }
    forall other <- w'.dispatches
      ensures ReceiptOfDispatch(SentOf(w', w'.dispatches[other].key), other, w'.dispatches[other].phase)
    {
      assert ReceiptOfDispatch(SentOf(w, w.dispatches[other].key), other, w.dispatches[other].phase);
    }
  }

  lemma {:induction false} OtherStepsKeepReceiptsUnique(w: World, e: Event)
    requires ReceiptsAreUnique(w) && Enabled(w, e)
    requires e.Advance? ==> !w.dispatches[e.dispatch].phase.Send?
    ensures ReceiptsAreUnique(Step(w, e))
  {
    var w' := Step(w, e);
    assert w'.sent == w.sent;
    assert forall other <- w.dispatches :: w.dispatches[other].phase.Accepted? ==>
        w'.dispatches[other] == w.dispatches[other];
    forall k <- w'.sent, p | 0 <= p < |w'.sent[k]|
      ensures DispatchOwnsReceipt(w'.dispatches, k, p, w'.sent[k][p])
    {
      assert DispatchOwnsReceipt(w.dispatches, k, p, w.sent[k][p]);
    }
    forall other <- w'.dispatches
      ensures ReceiptOfDispatch(SentOf(w', w'.dispatches[other].key), other, w'.dispatches[other].phase)
    {
      if other in w.dispatches {
        assert ReceiptOfDispatch(SentOf(w, w.dispatches[other].key), other, w.dispatches[other].phase);
      }
    }
  }

  lemma {:induction false} StepKeepsReceiptsUnique(w: World, e: Event)
    requires ReceiptsAreUnique(w)
    ensures ReceiptsAreUnique(Step(w, e))
  {
    if Enabled(w, e) {
      if e.Advance? && w.dispatches[e.dispatch].phase.Send? {
        SendKeepsReceiptsUnique(w, e.dispatch);
      } else {
        OtherStepsKeepReceiptsUnique(w, e);
      }
    }
  }

  /** A worker on its way out because no sender was left, or gone for that reason. */
  predicate IsAbandoned(worker: Worker) {
    (worker.phase.Leaving? || worker.phase.Left? || worker.phase.Gone?) && worker.phase.reason == AllSendersGone
  }

  predicate HasNothingToLose(w: World, id: WorkerId, worker: Worker) {
    IsAbandoned(worker) ==> worker.queue == [] && worker.discarded == [] && !HasSender(w, id)
  }

  /** Nothing can reach an abandoned worker any more, and nothing was left in its queue. */
  predicate AbandonedAreEmpty(w: World) {
    forall id <- w.c.tasks :: HasNothingToLose(w, id, w.c.tasks[id])
  }

  /** The tasks that were there get no new sender. */
  lemma {:induction false} NoNewSenders(w: World, e: Event, id: WorkerId)
    requires TableIsSound(w) && Enabled(w, e) && id in w.c.tasks && HasSender(Step(w, e), id)
    ensures HasSender(w, id)
  {
    var w' := Step(w, e);
    if e.Work? {
      WorkShape(w, e.worker, e.move);
    }
    if d :| d in w'.dispatches && w'.dispatches[d].phase.Send? && w'.dispatches[d].phase.worker == id {
      if d in w.dispatches && w'.dispatches[d] == w.dispatches[d] {
        assert w.dispatches[d].phase.Send?;
      } else {
        assert e == Advance(d) && w.dispatches[d].phase.LookUp?;
        assert w.dispatches[d].key in w.c.workers;
      }
    }
  }

  lemma {:induction false} MoveKeepsNothingToLose(w: World, id: WorkerId, move: Move)
    requires Enabled(w, Work(id, move)) && Tidy(w.c.tasks[id]) && HasNothingToLose(w, id, w.c.tasks[id])
    ensures HasNothingToLose(w, id, Moved(w.c.tasks[id], move))
  {
  }

  lemma {:induction false} SentToHasSender(w: World, d: DispatchId)
    requires TableIsSound(w) && AbandonedAreEmpty(w) && d in w.dispatches && w.dispatches[d].phase.Send?
    ensures w.dispatches[d].phase.worker in w.c.tasks && !IsAbandoned(w.c.tasks[w.dispatches[d].phase.worker])
  {
    var id := w.dispatches[d].phase.worker;
    assert DispatchIsSound(w.c, w.dispatches[d]);
    assert HasNothingToLose(w, id, w.c.tasks[id]) && HasSender(w, id);
  }

  lemma {:induction false} StepKeepsAbandonedEmpty(w: World, e: Event)
    requires TableIsSound(w) && HistoryIsSound(w) && AbandonedAreEmpty(w)
    ensures AbandonedAreEmpty(Step(w, e))
  {
    if Enabled(w, e) {
      var w' := Step(w, e);
      TaskAfterStep(w, e);
      forall id <- w'.c.tasks
        ensures HasNothingToLose(w', id, w'.c.tasks[id])
      {
        if id in w.c.tasks && HasSender(w', id) {
          NoNewSenders(w, e, id);
        }
      }
    }
  }

  /** What a step does to the tasks, their senders aside. */
  lemma {:induction false} TaskAfterStep(w: World, e: Event)
    requires TableIsSound(w) && HistoryIsSound(w) && AbandonedAreEmpty(w) && Enabled(w, e)
    ensures forall id <- Step(w, e).c.tasks ::
              if id in w.c.tasks then HasNothingToLose(w, id, Step(w, e).c.tasks[id])
                  else !IsAbandoned(Step(w, e).c.tasks[id])
  {
    if e.Work? {
      WorkShape(w, e.worker, e.move);
      assert InboxIsSound(w.c.tasks[e.worker], e.worker, SentOf(w, w.c.tasks[e.worker].key));
      MoveKeepsNothingToLose(w, e.worker, e.move);
    } else if e.Advance? && w.dispatches[e.dispatch].phase.Send? {
      SentToHasSender(w, e.dispatch);
      AcceptedSendStep(w, e.dispatch);
    } else {
      OtherStepShape(w, e);
    }
  }

  datatype Fate = IsHandled | IsBeingHandled | IsQueued | HasCrashedTheHandler | IsDiscarded

  predicate HasFate(worker: Worker, ticket: Ticket, fate: Fate) {
    match fate
    case IsHandled => ticket in worker.finished
    case IsBeingHandled => ticket in Current(worker)
    case IsQueued => ticket in worker.queue && !worker.phase.Gone?
    case HasCrashedTheHandler => ticket in worker.crashed && worker.phase == Gone(Panicked)
    case IsDiscarded =>
      ticket in worker.discarded && (worker.phase == Gone(IdledOut) || worker.phase == Gone(Panicked))
  }

  /** Every accepted message has exactly one fate, at the worker it was accepted for; it is
      discarded only together with the receiver of a worker that had idled out or panicked. */
  lemma {:induction false} AcceptedMessageHasOneFate(w: World, key: Key, ticket: Ticket)
    requires HistoryIsSound(w) && AbandonedAreEmpty(w) && ticket < |SentOf(w, key)|
    ensures var id := SentOf(w, key)[ticket].worker;
            && id in w.c.tasks && w.c.tasks[id].key == key
            && (exists fate :: HasFate(w.c.tasks[id], ticket, fate))
            && (forall f, g :: HasFate(w.c.tasks[id], ticket, f) && HasFate(w.c.tasks[id], ticket, g) ==> f == g)
    ensures forall id <- w.c.tasks, fate :: w.c.tasks[id].key == key && HasFate(w.c.tasks[id], ticket, fate) ==>
              id == SentOf(w, key)[ticket].worker
  {
    var id := SentOf(w, key)[ticket].worker;
    assert ReceiptIsSound(w.c, key, ticket, SentOf(w, key)[ticket]);
    assert HasNothingToLose(w, id, w.c.tasks[id]);
    InboxPartsAreDisjoint(w.c.tasks[id], ticket);
    forall other <- w.c.tasks, fate | w.c.tasks[other].key == key && HasFate(w.c.tasks[other], ticket, fate)
      ensures other == id
    {
      assert InboxIsSound(w.c.tasks[other], other, SentOf(w, key));
      assert ticket in Inbox(w.c.tasks[other]);
    }
  }

  lemma {:induction false} InboxPartsAreDisjoint(worker: Worker, ticket: Ticket)
    requires Tidy(worker) && Increasing(Inbox(worker)) && ticket in Inbox(worker)
    requires IsAbandoned(worker) ==> worker.discarded == []
    ensures exists fate :: HasFate(worker, ticket, fate)
    ensures forall f, g :: HasFate(worker, ticket, f) && HasFate(worker, ticket, g) ==> f == g
  {
    assert HasFate(worker, ticket, IsHandled) || HasFate(worker, ticket, IsBeingHandled)
        || HasFate(worker, ticket, IsQueued)
        || HasFate(worker, ticket, HasCrashedTheHandler) || HasFate(worker, ticket, IsDiscarded);
    var a, b := worker.finished, Current(worker);
    var c, d, e := worker.crashed, worker.queue, worker.discarded;
    AppendDisjoint(a + b + c + d, e, ticket);
    AppendDisjoint(a + b + c, d, ticket);
    AppendDisjoint(a + b, c, ticket);
    AppendDisjoint(a, b, ticket);
  }

  lemma {:induction false} AppendDisjoint(s: seq<Ticket>, t: seq<Ticket>, x: Ticket)
    requires Increasing(s + t)
    ensures Increasing(s) && Increasing(t) && !(x in s && x in t)
  {
    forall i, j | 0 <= i < j < |s|
      ensures s[i] < s[j]
    {
      assert s[i] == (s + t)[i] && s[j] == (s + t)[j];
    }
    forall i, j | 0 <= i < j < |t|
      ensures t[i] < t[j]
    {
      assert t[i] == (s + t)[|s| + i] && t[j] == (s + t)[|s| + j];
    }
    forall i, j | 0 <= i < |s| && 0 <= j < |t|
      ensures s[i] < t[j]
    {
      assert s[i] == (s + t)[i] && t[j] == (s + t)[|s| + j];
    }
  }

  // ---------------------------------------------------------------------------------------------
  // Messages of one key are handled in the order in which they were accepted.

  /** What a worker that can still handle messages has before it. */
  function Pending(worker: Worker): seq<Ticket> {
    Current(worker) + worker.queue
  }

  predicate ComesAfter(later: seq<Ticket>, earlier: seq<Ticket>) {
    forall i, j :: 0 <= i < |earlier| && 0 <= j < |later| ==> earlier[i] < later[j]
  }

  predicate HandledIsSound(w: World, key: Key, handled: seq<Ticket>) {
    && Increasing(handled)
    && forall i :: 0 <= i < |handled| ==>
         && handled[i] < |SentOf(w, key)|
         && SentOf(w, key)[handled[i]].worker in w.c.tasks
         && handled[i] in w.c.tasks[SentOf(w, key)[handled[i]].worker].finished
  }

  predicate OrderIsSound(w: World) {
    && (forall key <- w.handled :: HandledIsSound(w, key, w.handled[key]))
    && (forall id <- w.c.tasks :: CanHandle(w.c.tasks[id]) ==>
          ComesAfter(Pending(w.c.tasks[id]), HandledOf(w, w.c.tasks[id].key)))
  }

  /** Receipts stay where they are, and a finished message stays finished. */
  predicate HistoryGoesOn(w: World, w': World) {
    && (forall key <- w.sent :: SentOf(w, key) <= SentOf(w', key))
    && (forall id <- w.c.tasks :: id in w'.c.tasks && w.c.tasks[id].finished <= w'.c.tasks[id].finished)
  }

  lemma {:induction false} HandledStaysSound(w: World, w': World, key: Key, handled: seq<Ticket>)
    requires HandledIsSound(w, key, handled) && HistoryGoesOn(w, w')
    ensures HandledIsSound(w', key, handled)
  {
    assert SentOf(w, key) <= SentOf(w', key);
  }

  lemma {:induction false} StepHistoryGoesOn(w: World, e: Event)
    requires TableIsSound(w)
    ensures HistoryGoesOn(w, Step(w, e))
  {
    if Enabled(w, e) {
      if e.Work? {
        WorkShape(w, e.worker, e.move);
      } else if e.Advance? && w.dispatches[e.dispatch].phase.Send? {
        AcceptedSendStep(w, e.dispatch);
      } else {
        OtherStepShape(w, e);
      }
    }
  }

  lemma {:induction false} SendKeepsOrder(w: World, d: DispatchId)
    requires OrderIsSound(w) && d in w.dispatches && w.dispatches[d].phase.Send?
    requires TableIsSound(w)
    ensures OrderIsSound(Step(w, Advance(d)))
  {
    var w' := Step(w, Advance(d));
    var id := w.dispatches[d].phase.worker;
    assert DispatchIsSound(w.c, w.dispatches[d]);
    AcceptedSendStep(w, d);
    StepHistoryGoesOn(w, Advance(d));
    forall key <- w'.handled
      ensures HandledIsSound(w', key, w'.handled[key])
    {
      HandledStaysSound(w, w', key, w.handled[key]);
    }
    if !w.c.tasks[id].phase.Gone? && CanHandle(w.c.tasks[id]) {
      QueuedComesAfter(w, id, w.dispatches[d].key);
    }
  }

  lemma {:induction false} QueuedComesAfter(w: World, id: WorkerId, key: Key)
    requires OrderIsSound(w) && id in w.c.tasks && CanHandle(w.c.tasks[id]) && w.c.tasks[id].key == key
    ensures var worker := w.c.tasks[id];
            ComesAfter(Pending(worker.(queue := worker.queue + [|SentOf(w, key)|])), HandledOf(w, key))
  {
    var worker, n := w.c.tasks[id], |SentOf(w, key)|;
    assert Pending(worker.(queue := worker.queue + [n])) == Pending(worker) + [n];
    assert key in w.handled ==> HandledIsSound(w, key, w.handled[key]);
  }

  lemma {:induction false} MoveKeepsPending(worker: Worker, move: Move)
    requires CanHandle(Moved(worker, move)) && !(worker.phase.Handling? && move == Finish)
    ensures CanHandle(worker) && Pending(Moved(worker, move)) == Pending(worker)
  {
  }

  lemma {:induction false} IncreasingParts(a: seq<Ticket>, m: Ticket, b: seq<Ticket>)
    requires Increasing(a + [m] + b)
    ensures forall j :: 0 <= j < |b| ==> m < b[j]
  {
    var all := a + [m] + b;
    assert all[|a|] == m;
    forall j | 0 <= j < |b|
      ensures m < b[j]
    {
      assert all[|a| + 1 + j] == b[j];
    }
  }

  lemma {:induction false} ComesAfterMore(m: Ticket, queue: seq<Ticket>, handled: seq<Ticket>)
    requires Increasing(handled) && ComesAfter([m] + queue, handled)
    requires forall j :: 0 <= j < |queue| ==> m < queue[j]
    ensures Increasing(handled + [m]) && ComesAfter(queue, handled + [m])
  {
    assert ([m] + queue)[0] == m;
    assert forall j :: 0 <= j < |queue| ==> queue[j] == ([m] + queue)[j + 1];
  }

  lemma {:induction false} FinishedComesBeforeTheQueue(worker: Worker, id: WorkerId, sent: seq<Receipt>,
      handled: seq<Ticket>)
    requires worker.phase.Handling? && InboxIsSound(worker, id, sent)
    requires Increasing(handled) && ComesAfter(Pending(worker), handled)
    ensures Increasing(handled + [worker.phase.message])
    ensures ComesAfter(worker.queue, handled + [worker.phase.message])
    ensures worker.phase.message < |sent| && sent[worker.phase.message].worker == id
  {
    var m := worker.phase.message;
    assert Inbox(worker) == worker.finished + [m] + worker.queue;
    assert Inbox(worker)[|worker.finished|] == m;
    IncreasingParts(worker.finished, m, worker.queue);
    ComesAfterMore(m, worker.queue, handled);
  }

  /** What a worker's step does to the tasks and the history. */
  predicate WorkedTo(w: World, w': World, id: WorkerId, worker': Worker) {
    && id in w.c.tasks && worker'.key == w.c.tasks[id].key
    && w'.c.tasks == w.c.tasks[id := worker'] && w'.sent == w.sent && HistoryGoesOn(w, w')
  }

  lemma {:induction false} WorkStep(w: World, id: WorkerId, move: Move)
    requires TableIsSound(w) && Enabled(w, Work(id, move))
    ensures var w' := Step(w, Work(id, move));
            var worker := w.c.tasks[id];
            && WorkedTo(w, w', id, Moved(worker, move))
            && w'.handled == if worker.phase.Handling? && move == Finish
                             then w.handled[worker.key := HandledOf(w, worker.key) + [worker.phase.message]]
                                 else w.handled
  {
    StepHistoryGoesOn(w, Work(id, move));
  }

  predicate FinishedTo(w: World, w': World, id: WorkerId) {
    && id in w.c.tasks && w.c.tasks[id].phase.Handling?
    && var worker := w.c.tasks[id];
       && WorkedTo(w, w', id, worker.(phase := Receiving, finished := worker.finished + [worker.phase.message]))
       && w'.handled == w.handled[worker.key := HandledOf(w, worker.key) + [worker.phase.message]]
  }

  lemma {:induction false} HandledGrowsSoundly(w: World, key: Key, handled: seq<Ticket>, ticket: Ticket)
    requires HandledIsSound(w, key, handled) && Increasing(handled + [ticket])
    requires ticket < |SentOf(w, key)| && SentOf(w, key)[ticket].worker in w.c.tasks
    requires ticket in w.c.tasks[SentOf(w, key)[ticket].worker].finished
    ensures HandledIsSound(w, key, handled + [ticket])
  {
  }

  lemma {:induction false} FinishedMessageIsHandledSoundly(w: World, w': World, id: WorkerId)
    requires OrderIsSound(w) && HistoryIsSound(w) && FinishedTo(w, w', id)
    ensures HandledIsSound(w', w.c.tasks[id].key, HandledOf(w, w.c.tasks[id].key) + [w.c.tasks[id].phase.message])
  {
    var worker := w.c.tasks[id];
    var key := worker.key;
    assert InboxIsSound(worker, id, SentOf(w, key));
    assert ComesAfter(Pending(worker), HandledOf(w, key));
    assert HandledIsSound(w, key, HandledOf(w, key));
    FinishedComesBeforeTheQueue(worker, id, SentOf(w, key), HandledOf(w, key));
    HandledStaysSound(w, w', key, HandledOf(w, key));
    assert worker.phase.message == w'.c.tasks[id].finished[|worker.finished|];
    HandledGrowsSoundly(w', key, HandledOf(w, key), worker.phase.message);
  }

  lemma {:induction false} FinishKeepsHandled(w: World, w': World, id: WorkerId)
    requires OrderIsSound(w) && HistoryIsSound(w) && FinishedTo(w, w', id)
    ensures forall key <- w'.handled :: HandledIsSound(w', key, w'.handled[key])
  {
    FinishedMessageIsHandledSoundly(w, w', id);
    forall k <- w'.handled
      ensures HandledIsSound(w', k, w'.handled[k])
    {
      if k != w.c.tasks[id].key {
        HandledStaysSound(w, w', k, w.handled[k]);
      }
    }
  }

  lemma {:induction false} FinishKeepsPendingAfter(w: World, w': World, id: WorkerId)
    requires OrderIsSound(w) && OneWorkerPerKey(w.c) && HistoryIsSound(w) && FinishedTo(w, w', id)
    ensures forall other <- w'.c.tasks :: CanHandle(w'.c.tasks[other]) ==>
              ComesAfter(Pending(w'.c.tasks[other]), HandledOf(w', w'.c.tasks[other].key))
  {
    forall other <- w'.c.tasks | CanHandle(w'.c.tasks[other])
      ensures ComesAfter(Pending(w'.c.tasks[other]), HandledOf(w', w'.c.tasks[other].key))
    {
      if other == id {
        FinishedBeforeTheRest(w, id);
        assert Pending(w'.c.tasks[id]) == w.c.tasks[id].queue;
      } else {
        OtherStaysAfter(w, w', id, other);
      }
    }
  }

  lemma {:induction false} OtherStaysAfter(w: World, w': World, id: WorkerId, other: WorkerId)
    requires OrderIsSound(w) && OneWorkerPerKey(w.c) && FinishedTo(w, w', id)
    requires other in w.c.tasks && other != id && CanHandle(w.c.tasks[other])
    ensures ComesAfter(Pending(w'.c.tasks[other]), HandledOf(w', w'.c.tasks[other].key))
  {
    assert w.c.tasks[other].key != w.c.tasks[id].key;
    assert ComesAfter(Pending(w.c.tasks[other]), HandledOf(w, w.c.tasks[other].key));
  }

  lemma {:induction false} FinishedBeforeTheRest(w: World, id: WorkerId)
    requires OrderIsSound(w) && HistoryIsSound(w) && id in w.c.tasks && w.c.tasks[id].phase.Handling?
    ensures var worker := w.c.tasks[id];
            ComesAfter(worker.queue, HandledOf(w, worker.key) + [worker.phase.message])
  {
    var worker := w.c.tasks[id];
    assert InboxIsSound(worker, id, SentOf(w, worker.key));
    assert worker.key in w.handled ==> HandledIsSound(w, worker.key, HandledOf(w, worker.key));
    FinishedComesBeforeTheQueue(worker, id, SentOf(w, worker.key), HandledOf(w, worker.key));
  }

  lemma {:induction false} OtherMovesKeepOrder(w: World, w': World, id: WorkerId, worker': Worker)
    requires OrderIsSound(w) && WorkedTo(w, w', id, worker') && w'.handled == w.handled
    requires CanHandle(worker') ==> CanHandle(w.c.tasks[id]) && Pending(worker') == Pending(w.c.tasks[id])
    ensures OrderIsSound(w')
  {
    forall key <- w'.handled
      ensures HandledIsSound(w', key, w'.handled[key])
    {
      HandledStaysSound(w, w', key, w.handled[key]);
    }
  }

  lemma {:induction false} WorkKeepsOrder(w: World, id: WorkerId, move: Move)
    requires OrderIsSound(w) && OneWorkerPerKey(w.c) && HistoryIsSound(w) && TableIsSound(w)
        && Enabled(w, Work(id, move))
    ensures OrderIsSound(Step(w, Work(id, move)))
  {
    var worker := w.c.tasks[id];
    WorkStep(w, id, move);
    if worker.phase.Handling? && move == Finish {
      FinishKeepsHandled(w, Step(w, Work(id, move)), id);
      FinishKeepsPendingAfter(w, Step(w, Work(id, move)), id);
    } else {
      if CanHandle(Moved(worker, move)) {
        MoveKeepsPending(worker, move);
      }
      OtherMovesKeepOrder(w, Step(w, Work(id, move)), id, Moved(worker, move));
    }
  }

  lemma {:induction false} OtherStepsKeepOrder(w: World, e: Event)
    requires OrderIsSound(w) && TableIsSound(w) && Enabled(w, e) && !e.Work?
    requires e.Advance? ==> !w.dispatches[e.dispatch].phase.Send?
    ensures OrderIsSound(Step(w, e))
  {
    var w' := Step(w, e);
    StepHistoryGoesOn(w, e);
    forall key <- w'.handled
      ensures HandledIsSound(w', key, w'.handled[key])
    {
      HandledStaysSound(w, w', key, w.handled[key]);
    }
    forall id <- w'.c.tasks | CanHandle(w'.c.tasks[id])
      ensures ComesAfter(Pending(w'.c.tasks[id]), HandledOf(w', w'.c.tasks[id].key))
    {
      if id !in w.c.tasks {
        assert Pending(w'.c.tasks[id]) == [];
      }
    }
  }

  // ---------------------------------------------------------------------------------------------
  // The theorems over whole executions.

  /** Every message a worker finished is in its key's record of handled messages. */
  predicate FinishedIsRecorded(w: World) {
    forall id <- w.c.tasks :: IsRecorded(w.c.tasks[id].finished, HandledOf(w, w.c.tasks[id].key))
  }

  predicate IsRecorded(finished: seq<Ticket>, handled: seq<Ticket>) {
    forall i :: 0 <= i < |finished| ==> finished[i] in handled
  }

  lemma {:induction false} StepKeepsRecorded(w: World, e: Event)
    requires TableIsSound(w) && FinishedIsRecorded(w)
    ensures FinishedIsRecorded(Step(w, e))
  {
    if Enabled(w, e) && e.Work? {
      WorkKeepsRecorded(w, e.worker, e.move);
    } else {
      OtherStepsKeepRecorded(w, e);
    }
  }

  lemma {:induction false} WorkKeepsRecorded(w: World, worker: WorkerId, move: Move)
    requires TableIsSound(w) && FinishedIsRecorded(w) && Enabled(w, Work(worker, move))
    ensures FinishedIsRecorded(Step(w, Work(worker, move)))
  {
    var w' := Step(w, Work(worker, move));
    WorkStep(w, worker, move);
    forall id <- w'.c.tasks
      ensures IsRecorded(w'.c.tasks[id].finished, HandledOf(w', w'.c.tasks[id].key))
    {
      assert IsRecorded(w.c.tasks[id].finished, HandledOf(w, w.c.tasks[id].key));
    }
  }

  lemma {:induction false} OtherStepsKeepRecorded(w: World, e: Event)
    requires TableIsSound(w) && FinishedIsRecorded(w) && !(Enabled(w, e) && e.Work?)
    ensures FinishedIsRecorded(Step(w, e))
  {
    var w' := Step(w, e);
    forall id <- w'.c.tasks
      ensures IsRecorded(w'.c.tasks[id].finished, HandledOf(w', w'.c.tasks[id].key))
    {
      if id in w.c.tasks {
        assert IsRecorded(w.c.tasks[id].finished, HandledOf(w, w.c.tasks[id].key));
      }
    }
  }

  predicate Inv(w: World) {
    TableIsSound(w) && HistoryIsSound(w) && ReceiptsAreUnique(w) && FinishedIsRecorded(w) && AbandonedAreEmpty(w)
  }

  lemma {:induction false} StepKeepsInv(w: World, e: Event)
    requires Inv(w)
    ensures Inv(Step(w, e))
  {
    StepKeepsTable(w, e);
    StepKeepsHistory(w, e);
    StepKeepsReceiptsUnique(w, e);
    StepKeepsRecorded(w, e);
    StepKeepsAbandonedEmpty(w, e);
  }

  lemma {:induction false} RunKeepsInv(w: World, events: seq<Event>)
    requires Inv(w)
    ensures Inv(Run(w, events))
    decreases |events|
  {
    if events != [] {
      StepKeepsInv(w, events[0]);
      RunKeepsInv(Step(w, events[0]), events[1..]);
    }
  }

  predicate NoRemovals(events: seq<Event>) {
    forall i :: 0 <= i < |events| ==> !events[i].Remove?
  }

  lemma {:induction false} StepKeepsOrder(w: World, e: Event)
    requires Inv(w) && OneWorkerPerKey(w.c) && OrderIsSound(w)
    ensures OrderIsSound(Step(w, e))
  {
    if Enabled(w, e) {
      if e.Work? {
        WorkKeepsOrder(w, e.worker, e.move);
      } else if e.Advance? && w.dispatches[e.dispatch].phase.Send? {
        SendKeepsOrder(w, e.dispatch);
      } else {
        OtherStepsKeepOrder(w, e);
      }
    }
  }

  /** Explicit removals hit no worker that can still handle messages. */
  predicate RemovalsAreHarmless(w: World, events: seq<Event>)
    decreases |events|
  {
    events != [] ==>
      && (events[0].Remove? ==> RemovesNoLiveWorker(w.c, events[0].key))
      && RemovalsAreHarmless(Step(w, events[0]), events[1..])
  }

  lemma {:induction false} NoRemovalIsHarmless(w: World, events: seq<Event>)
    requires NoRemovals(events)
    ensures RemovalsAreHarmless(w, events)
    decreases |events|
  {
    if events != [] {
      NoRemovalIsHarmless(Step(w, events[0]), events[1..]);
    }
  }

  lemma {:induction false} HarmlessStepKeepsOneWorker(w: World, e: Event)
    requires TableIsSound(w) && OneWorkerPerKey(w.c) && (e.Remove? ==> RemovesNoLiveWorker(w.c, e.key))
    ensures OneWorkerPerKey(Step(w, e).c)
  {
    if e.Remove? {
      RemoveKeepsOneWorkerIff(w.c, e.key);
    } else {
      StepKeepsOneWorker(w, e);
    }
  }

  lemma {:induction false} RunKeepsOrder(w: World, events: seq<Event>)
    requires Inv(w) && OneWorkerPerKey(w.c) && OrderIsSound(w) && RemovalsAreHarmless(w, events)
    ensures OneWorkerPerKey(Run(w, events).c) && OrderIsSound(Run(w, events))
    decreases |events|
  {
    if events != [] {
      StepKeepsInv(w, events[0]);
      HarmlessStepKeepsOneWorker(w, events[0]);
      StepKeepsOrder(w, events[0]);
      RunKeepsOrder(Step(w, events[0]), events[1..]);
    }
  }

  /** As long as explicit removals hit no worker that can still handle messages, handlers of one key
      never overlap: across idle exits, panics and respawns a key never has two workers that can handle
      messages, and the one it has is the one the table names, so its receiver never learns that all
      senders are gone. */
  lemma {:induction false} HandlersOfOneKeyNeverOverlap(events: seq<Event>, a: WorkerId, b: WorkerId)
    requires RemovalsAreHarmless(EMPTY, events)
    ensures var w := Run(EMPTY, events);
            (a in w.c.tasks && b in w.c.tasks && CanHandle(w.c.tasks[a]) && CanHandle(w.c.tasks[b])
             && w.c.tasks[a].key == w.c.tasks[b].key) ==> (a == b && HasSender(w, a))
  {
    RunKeepsOrder(EMPTY, events);
  }

  /** Under the same condition, the messages of a key that were handled are a subsequence, in order
      and without repetition, of those that were accepted. */
  lemma {:induction false} MessagesAreHandledInOrder(events: seq<Event>, key: Key)
    requires RemovalsAreHarmless(EMPTY, events)
    ensures var w := Run(EMPTY, events);
            && Increasing(HandledOf(w, key))
            && (forall t <- HandledOf(w, key) :: t < |SentOf(w, key)|)
            && forall t :: 0 <= t < |SentOf(w, key)| && SentOf(w, key)[t].worker in w.c.tasks ==>
                 (t in HandledOf(w, key) <==> HasFate(w.c.tasks[SentOf(w, key)[t].worker], t, IsHandled))
  {
    RunKeepsOrder(EMPTY, events);
    RunKeepsInv(EMPTY, events);
    var w := Run(EMPTY, events);
    if key in w.handled {
      assert HandledIsSound(w, key, w.handled[key]);
    }
    forall t | 0 <= t < |SentOf(w, key)| && SentOf(w, key)[t].worker in w.c.tasks
      ensures t in HandledOf(w, key) <==> HasFate(w.c.tasks[SentOf(w, key)[t].worker], t, IsHandled)
    {
      assert ReceiptIsSound(w.c, key, t, SentOf(w, key)[t]);
      var worker := w.c.tasks[SentOf(w, key)[t].worker];
      assert IsRecorded(worker.finished, HandledOf(w, key));
    }
  }

  /** Without explicit removals, that is, while sessions are only used and left idle: at most one worker
      of a key can handle messages, and what was handled came in the order in which it was accepted. */
  lemma {:induction false} WithoutRemovalsOneWorkerHandlesInOrder(events: seq<Event>, key: Key)
    requires NoRemovals(events)
    ensures var w := Run(EMPTY, events);
            && (forall a <- w.c.tasks, b <- w.c.tasks ::
                  CanHandle(w.c.tasks[a]) && CanHandle(w.c.tasks[b]) && w.c.tasks[a].key == w.c.tasks[b].key ==> a == b)
            && Increasing(HandledOf(w, key))
            && (forall t <- HandledOf(w, key) :: t < |SentOf(w, key)|)
  {
    NoRemovalIsHarmless(EMPTY, events);
    var w := Run(EMPTY, events);
    forall a <- w.c.tasks, b <- w.c.tasks |
        CanHandle(w.c.tasks[a]) && CanHandle(w.c.tasks[b]) && w.c.tasks[a].key == w.c.tasks[b].key
      ensures a == b
    {
      HandlersOfOneKeyNeverOverlap(events, a, b);
    }
    MessagesAreHandledInOrder(events, key);
  }

  /** In every execution, removals included: each accepted message has exactly one fate, it is discarded
      only when its worker had idled out or panicked and is gone, and a dispatch reports success exactly when its
      message was accepted. */
  lemma {:induction false} NoMessageIsDuplicatedOrForgotten(events: seq<Event>, key: Key, ticket: Ticket)
    requires ticket < |SentOf(Run(EMPTY, events), key)|
    ensures var w := Run(EMPTY, events);
            var receipt := SentOf(w, key)[ticket];
            && receipt.worker in w.c.tasks
            && (exists fate :: HasFate(w.c.tasks[receipt.worker], ticket, fate))
            && (forall id <- w.c.tasks, f, g ::
                  (w.c.tasks[id].key == key && HasFate(w.c.tasks[id], ticket, f)
                      && HasFate(w.c.tasks[receipt.worker], ticket, g))
                  ==> (id == receipt.worker && f == g))
            && receipt.dispatch in w.dispatches
            && w.dispatches[receipt.dispatch] == Dispatch(key, Accepted(ticket))
  {
    var w := Run(EMPTY, events);
    RunKeepsInv(EMPTY, events);
    AcceptedMessageHasOneFate(w, key, ticket);
    assert DispatchOwnsReceipt(w.dispatches, key, ticket, SentOf(w, key)[ticket]);
  }

  // ---------------------------------------------------------------------------------------------
  // Which accepted messages can be handled.

  predicate IsFinishedIn(w: World, id: WorkerId, ticket: Ticket) {
    id in w.c.tasks && ticket in w.c.tasks[id].finished
  }

  /** The worker's own next step, if it is to get on with its queue. */
  function NextMove(worker: Worker): Move {
    if worker.phase.Handling? then Finish else Receive
  }

  lemma {:induction false} OneMove(w: World, id: WorkerId)
    requires id in w.c.tasks && CanHandle(w.c.tasks[id])
    ensures var move := NextMove(w.c.tasks[id]);
            Step(w, Work(id, move)).c.tasks == w.c.tasks[id := Moved(w.c.tasks[id], move)]
  {
  }

  /** A worker that can handle messages can get to each message before it. */
  lemma {:induction false} WaitingMessageCanBeHandled(w: World, id: WorkerId, ticket: Ticket)
      returns (events: seq<Event>)
    requires id in w.c.tasks && CanHandle(w.c.tasks[id]) && ticket in Pending(w.c.tasks[id])
    ensures NoRemovals(events) && IsFinishedIn(Run(w, events), id, ticket)
    decreases 2 * |w.c.tasks[id].queue| + if w.c.tasks[id].phase.Handling? then 1 else 0
  {
    var worker := w.c.tasks[id];
    var e := Work(id, NextMove(worker));
    var w' := Step(w, e);
    OneMove(w, id);
    var rest := [];
    if !(worker.phase.Handling? && worker.phase.message == ticket) {
      assert ticket in worker.queue;
      assert ticket in Pending(w'.c.tasks[id]);
      rest := WaitingMessageCanBeHandled(w', id, ticket);
    }
    events := [e] + rest;
    assert events[1..] == rest;
  }

  lemma {:induction false} LateStaysLate(w: World, e: Event, id: WorkerId)
    requires id in w.c.tasks && !CanHandle(w.c.tasks[id]) && id < w.c.nextWorkerId
    ensures var w' := Step(w, e);
            && id in w'.c.tasks && !CanHandle(w'.c.tasks[id]) && id < w'.c.nextWorkerId
            && w'.c.tasks[id].finished == w.c.tasks[id].finished
  {
  }

  lemma {:induction false} LateMessageIsNeverHandled(w: World, events: seq<Event>, id: WorkerId, ticket: Ticket)
    requires id in w.c.tasks && !CanHandle(w.c.tasks[id]) && id < w.c.nextWorkerId && ticket !in w.c.tasks[id].finished
    ensures !IsFinishedIn(Run(w, events), id, ticket)
    decreases |events|
  {
    if events != [] {
      LateStaysLate(w, events[0], id);
      LateMessageIsNeverHandled(Step(w, events[0]), events[1..], id, ticket);
    }
  }

  /** Whatever happened before, removals included: a message that a worker's receiver has just accepted
      can still be handled if and only if the worker could handle messages when it was sent. Otherwise
      no continuation handles it, although its dispatch reports success. */
  lemma {:induction false} AcceptedMessageCanBeHandledIff(events: seq<Event>, d: DispatchId)
    requires var w := Run(EMPTY, events);
             && d in w.dispatches && w.dispatches[d].phase.Send?
             && Step(w, Advance(d)).dispatches[d].phase.Accepted?
    ensures var w := Run(EMPTY, events);
            var w' := Step(w, Advance(d));
            var id := w.dispatches[d].phase.worker;
            && id in w.c.tasks
            && (CanStillBeHandled(w', id, w'.dispatches[d].phase.ticket) <==> CanHandle(w.c.tasks[id]))
  {
    var w := Run(EMPTY, events);
    var w' := Step(w, Advance(d));
    var id, key := w.dispatches[d].phase.worker, w.dispatches[d].key;
    RunKeepsInv(EMPTY, events);
    AcceptedSendStep(w, d);
    assert DispatchIsSound(w.c, w.dispatches[d]);
    var ticket := w'.dispatches[d].phase.ticket;
    NewTicketIsNotFinished(w, id, key);
    assert w'.c.tasks[id] == w.c.tasks[id].(queue := w.c.tasks[id].queue + [ticket]);
    QueuedMessageCanBeHandledIff(w', id, ticket);
  }

  ghost predicate CanStillBeHandled(w: World, id: WorkerId, ticket: Ticket) {
    exists more :: IsFinishedIn(Run(w, more), id, ticket)
  }

  lemma {:induction false} QueuedMessageCanBeHandledIff(w: World, id: WorkerId, ticket: Ticket)
    requires id in w.c.tasks && id < w.c.nextWorkerId && ticket in w.c.tasks[id].queue
        && ticket !in w.c.tasks[id].finished
    ensures CanStillBeHandled(w, id, ticket) <==> CanHandle(w.c.tasks[id])
  {
    if CanHandle(w.c.tasks[id]) {
      var more := WaitingMessageCanBeHandled(w, id, ticket);
      assert IsFinishedIn(Run(w, more), id, ticket);
    } else {
      forall more
        ensures !IsFinishedIn(Run(w, more), id, ticket)
      {
        LateMessageIsNeverHandled(w, more, id, ticket);
      }
    }
  }

  lemma {:induction false} NewTicketIsNotFinished(w: World, id: WorkerId, key: Key)
    requires Inv(w) && id in w.c.tasks && w.c.tasks[id].key == key
    ensures |SentOf(w, key)| !in w.c.tasks[id].finished
  {
    var worker := w.c.tasks[id];
    assert InboxIsSound(worker, id, SentOf(w, key));
    forall i | 0 <= i < |worker.finished|
      ensures worker.finished[i] < |SentOf(w, key)|
    {
      assert Inbox(worker)[i] == worker.finished[i];
    }
  }

  // ---------------------------------------------------------------------------------------------
  // Runs in which a hypothesis fails.

  lemma {:induction false} RunOfChain(worlds: seq<World>, events: seq<Event>)
    requires |worlds| == |events| + 1
    requires forall i :: 0 <= i < |events| ==> worlds[i + 1] == Step(worlds[i], events[i])
    ensures Run(worlds[0], events) == worlds[|events|]
    decreases |events|
  {
    if events != [] {
      forall i | 0 <= i < |events| - 1
        ensures worlds[1..][i + 1] == Step(worlds[1..][i], events[1..][i])
      {
        assert worlds[i + 2] == Step(worlds[i + 1], events[i + 1]);
      }
      RunOfChain(worlds[1..], events[1..]);
    }
  }


  /** After an idle timeout the receiver stays open until the task is gone, and a message accepted
      in between is lost although its dispatch reports success. */
  lemma {:induction false} AcceptedMessageCanBeLost()
    ensures exists events :: NoRemovals(events) &&
              var w := Run(EMPTY, events);
              && w.c.tasks == map[1 := Worker("k", Gone(IdledOut), [], [], [], [0])]
              && w.dispatches == map[0 := Dispatch("k", Accepted(0))]
  {
    OneElement(0);
    var w1 := Step(EMPTY, BeginDispatch(0, "k"));
    var w2 := Step(w1, Advance(0));
    assert w2.c == Coordinator(map["k" := 1], 2, map[1 := Worker("k", Receiving, [], [], [], [])]);
    assert w2.dispatches == map[0 := Dispatch("k", Send(0, 1))];
    var w3 := Step(w2, Work(1, IdleOut));
    assert w3.c == Coordinator(map["k" := 1], 2, map[1 := Worker("k", Leaving(IdledOut), [], [], [], [])]);
    var first := [BeginDispatch(0, "k"), Advance(0), Work(1, IdleOut)];
    RunOfChain([EMPTY, w1, w2, w3], first);
    var last := LateMessageIsLost(w3);
    RunConcat(EMPTY, first, last);
  }

  lemma {:induction false} LateSend(w: World)
    requires w.c == Coordinator(map["k" := 1], 2, map[1 := Worker("k", Leaving(IdledOut), [], [], [], [])])
    requires w.dispatches == map[0 := Dispatch("k", Send(0, 1))] && w.sent == map[]
    ensures var w' := Step(w, Advance(0));
            && w'.c == Coordinator(map["k" := 1], 2, map[1 := Worker("k", Leaving(IdledOut), [0], [], [], [])])
            && w'.dispatches == map[0 := Dispatch("k", Accepted(0))]
  {
    OneElement(0);
    AcceptedSendStep(w, 0);
  }

  lemma {:induction false} LateExit(w: World)
    requires w.c == Coordinator(map["k" := 1], 2, map[1 := Worker("k", Leaving(IdledOut), [0], [], [], [])])
    ensures var w' := Step(Step(w, Work(1, TakeOut)), Work(1, DropReceiver));
            && w'.c.tasks == map[1 := Worker("k", Gone(IdledOut), [], [], [], [0])] && w'.dispatches == w.dispatches
  {
    WorkShape(w, 1, TakeOut);
    var w1 := Step(w, Work(1, TakeOut));
    assert w1.c.tasks == map[1 := Worker("k", Left(IdledOut), [0], [], [], [])];
    WorkShape(w1, 1, DropReceiver);
  }

  lemma {:induction false} LateMessageIsLost(w: World) returns (events: seq<Event>)
    requires w.c == Coordinator(map["k" := 1], 2, map[1 := Worker("k", Leaving(IdledOut), [], [], [], [])])
    requires w.dispatches == map[0 := Dispatch("k", Send(0, 1))] && w.sent == map[]
    ensures NoRemovals(events)
    ensures var w' := Run(w, events);
            && w'.c.tasks == map[1 := Worker("k", Gone(IdledOut), [], [], [], [0])]
            && w'.dispatches == map[0 := Dispatch("k", Accepted(0))]
  {
    var w1 := Step(w, Advance(0));
    var w2 := Step(w1, Work(1, TakeOut));
    LateSend(w);
    LateExit(w1);
    events := [Advance(0), Work(1, TakeOut), Work(1, DropReceiver)];
    RunOfChain([w, w1, w2, Step(w2, Work(1, DropReceiver))], events);
  }

  /** With an explicit removal two handlers of one key can overlap. */
  lemma {:induction false} RemovalLetsHandlersOverlap()
    ensures exists events ::
              var w := Run(EMPTY, events);
              && 1 in w.c.tasks && 2 in w.c.tasks
              && w.c.tasks[1].key == w.c.tasks[2].key
              && w.c.tasks[1].phase.Handling? && w.c.tasks[2].phase.Handling?
  {
    OneElement(0);
    var w1 := Step(EMPTY, BeginDispatch(0, "k"));
    var w2 := Step(w1, Advance(0));
    var w3 := Step(w2, Advance(0));
    assert w3.c.tasks == map[1 := Worker("k", Receiving, [0], [], [], [])];
    var w4 := Step(w3, Work(1, Receive));
    assert w4.c == Coordinator(map["k" := 1], 2, map[1 := Worker("k", Handling(0), [], [], [], [])]);
    assert |SentOf(w4, "k")| == 1;
    var (e1, e2, e3, e4) := (BeginDispatch(0, "k"), Advance(0), Advance(0), Work(1, Receive));
    RunOfChain([EMPTY, w1, w2, w3, w4], [e1, e2, e3, e4]);
    var last := OverlapAfterRemoval(w4);
    RunConcat(EMPTY, [e1, e2, e3, e4], last);
  }

  lemma {:induction false} OverlapAfterRemoval(w: World) returns (events: seq<Event>)
    requires w.c == Coordinator(map["k" := 1], 2, map[1 := Worker("k", Handling(0), [], [], [], [])])
    requires |SentOf(w, "k")| == 1 && 1 !in w.dispatches
    ensures var w' := Run(w, events);
            w'.c.tasks == map[1 := Worker("k", Handling(0), [], [], [], []), 2 :=
                Worker("k", Handling(1), [], [], [], [])]
  {
    OneElement(1);
    var one := Worker("k", Handling(0), [], [], [], []);
    var w1 := Step(w, Remove("k"));
    var w2 := Step(w1, BeginDispatch(1, "k"));
    var w3 := Step(w2, Advance(1));
    assert w3.c == Coordinator(map["k" := 2], 3, map[1 := one, 2 := Worker("k", Receiving, [], [], [], [])]);
    var w4 := Step(w3, Advance(1));
    assert w4.c.tasks == map[1 := one, 2 := Worker("k", Receiving, [1], [], [], [])];
    var w5 := Step(w4, Work(2, Receive));
    assert w5.c.tasks == map[1 := one, 2 := Worker("k", Handling(1), [], [], [], [])];
    events := [Remove("k"), BeginDispatch(1, "k"), Advance(1), Advance(1), Work(2, Receive)];
    RunOfChain([w, w1, w2, w3, w4, w5], events);
  }

  lemma {:induction false} OneElement(t: Ticket)
    ensures [] + [t] == [t] && [t][1..] == []
  {
  }

  lemma {:induction false} RunConcat(w: World, first: seq<Event>, second: seq<Event>)
    ensures Run(w, first + second) == Run(Run(w, first), second)
    decreases |first|
  {
    if first == [] {
      assert first + second == second;
    } else {
      assert (first + second)[1..] == first[1..] + second;
      RunConcat(Step(w, first[0]), first[1..], second);
    }
  }
}
