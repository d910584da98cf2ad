/** What the second attempt of a dispatch is for: a dispatch gives its message up only after two workers
    were gone, and it always comes to an end. */
module SessionWorkersRetry {
  import opened SessionWorkers
  import opened SessionWorkersTheorems

  // ---------------------------------------------------------------------------------------------
  // Failed sends.

  /** The event is a send of this dispatch to a worker whose receiver is gone. */
  predicate IsFailedSend(w: World, e: Event, d: DispatchId) {
    && e == Advance(d) && d in w.dispatches && w.dispatches[d].phase.Send?
    && w.dispatches[d].phase.worker in w.c.tasks && w.c.tasks[w.dispatches[d].phase.worker].phase.Gone?
  }

  function FailedSends(w: World, events: seq<Event>, d: DispatchId): nat
    decreases |events|
  {
    if events == [] then 0
    else (if IsFailedSend(w, events[0], d) then 1 else 0) + FailedSends(Step(w, events[0]), events[1..], d)
  }

  /** How often a dispatch in this phase has failed to send. */
  predicate HasFailed(phase: DispatchPhase, times: nat) {
    match phase
    case LookUp(attempt) => attempt == times <= 1
    case Send(attempt, _) => attempt == times <= 1
    case CleanUp(attempt, _) => attempt + 1 == times <= 2
    case Accepted(_) => times <= 1
    case Dropped => times == 2
  }

  predicate FailedSoFar(w: World, d: DispatchId, times: nat) {
    if d in w.dispatches then HasFailed(w.dispatches[d].phase, times) else times == 0
  }

  lemma {:induction false} OwnStepCounts(w: World, d: DispatchId, times: nat)
    requires TableIsSound(w) && d in w.dispatches && FailedSoFar(w, d, times)
    ensures FailedSoFar(Step(w, Advance(d)), d, times + if IsFailedSend(w, Advance(d), d) then 1 else 0)
  {
    assert DispatchIsSound(w.c, w.dispatches[d]);
  }

  lemma {:induction false} OtherStepKeepsPhase(w: World, e: Event, d: DispatchId)
    requires d in w.dispatches && e != Advance(d)
    ensures d in Step(w, e).dispatches && Step(w, e).dispatches[d] == w.dispatches[d]
  {
  }

  lemma {:induction false} BeginStarts(w: World, e: Event, d: DispatchId)
    requires d !in w.dispatches && d in Step(w, e).dispatches
    ensures e.BeginDispatch? && Step(w, e).dispatches[d] == Dispatch(e.key, LookUp(0))
  {
  }

  lemma {:induction false} StepCounts(w: World, e: Event, d: DispatchId, times: nat)
    requires TableIsSound(w) && FailedSoFar(w, d, times)
    ensures FailedSoFar(Step(w, e), d, times + if IsFailedSend(w, e, d) then 1 else 0)
  {
    if d !in w.dispatches {
      if d in Step(w, e).dispatches {
        BeginStarts(w, e, d);
      }
    } else if e == Advance(d) {
      OwnStepCounts(w, d, times);
    } else {
      OtherStepKeepsPhase(w, e, d);
    }
  }

  lemma {:induction false} RunCounts(w: World, events: seq<Event>, d: DispatchId, times: nat)
    requires Inv(w) && FailedSoFar(w, d, times)
    ensures FailedSoFar(Run(w, events), d, times + FailedSends(w, events, d))
    decreases |events|
  {
    if events != [] {
      StepKeepsInv(w, events[0]);
      StepCounts(w, events[0], d, times);
      RunCounts(Step(w, events[0]), events[1..], d, times + if IsFailedSend(w, events[0], d) then 1 else 0);
    }
  }

  /** Whatever happens: a dispatch drops its message only after two sends failed, each because the worker's
      receiver was gone, and a dispatch that is accepted has failed at most once. */
  lemma {:induction false} DroppedAfterTwoFailures(events: seq<Event>, d: DispatchId)
    requires d in Run(EMPTY, events).dispatches
    ensures var phase := Run(EMPTY, events).dispatches[d].phase;
            && (phase.Dropped? ==> FailedSends(EMPTY, events, d) == 2)
            && (phase.Accepted? ==> FailedSends(EMPTY, events, d) <= 1)
            && FailedSends(EMPTY, events, d) <= 2
  {
    RunCounts(EMPTY, events, d, 0);
  }

  // ---------------------------------------------------------------------------------------------
  // Every dispatch ends.

  predicate IsOver(phase: DispatchPhase) {
    phase.Accepted? || phase.Dropped?
  }

  /** Two attempts of a look-up, a send and a clean-up each. */
  function StepsLeft(phase: DispatchPhase): int {
    match phase
    case LookUp(attempt) => 6 - 3 * attempt
    case Send(attempt, _) => 5 - 3 * attempt
    case CleanUp(attempt, _) => 4 - 3 * attempt
    case _ => 0
  }

  function OwnSteps(events: seq<Event>, d: DispatchId): nat {
    if events == [] then 0 else (if events[0] == Advance(d) then 1 else 0) + OwnSteps(events[1..], d)
  }

  lemma {:induction false} OwnStepLeavesLess(w: World, d: DispatchId)
    requires d in w.dispatches && !IsOver(w.dispatches[d].phase)
    ensures d in Step(w, Advance(d)).dispatches
    ensures var phase := Step(w, Advance(d)).dispatches[d].phase;
            IsOver(phase) || StepsLeft(phase) < StepsLeft(w.dispatches[d].phase)
  {
  }

  lemma {:induction false} OverStaysOver(w: World, e: Event, d: DispatchId)
    requires d in w.dispatches && IsOver(w.dispatches[d].phase)
    ensures d in Step(w, e).dispatches && Step(w, e).dispatches[d] == w.dispatches[d]
  {
  }

  lemma {:induction false} DispatchEnds(w: World, events: seq<Event>, d: DispatchId, times: nat)
    requires Inv(w) && d in w.dispatches && FailedSoFar(w, d, times)
    requires IsOver(w.dispatches[d].phase) || StepsLeft(w.dispatches[d].phase) <= OwnSteps(events, d)
    ensures d in Run(w, events).dispatches && IsOver(Run(w, events).dispatches[d].phase)
    decreases |events|
  {
    if events != [] {
      StepKeepsInv(w, events[0]);
      StepCounts(w, events[0], d, times);
      if IsOver(w.dispatches[d].phase) {
        OverStaysOver(w, events[0], d);
      } else if events[0] == Advance(d) {
        OwnStepLeavesLess(w, d);
      } else {
        OtherStepKeepsPhase(w, events[0], d);
      }
      DispatchEnds(Step(w, events[0]), events[1..], d, times + if IsFailedSend(w, events[0], d) then 1 else 0);
    }
  }

  /** In every execution a dispatch has its answer after at most six steps of its own, whatever all the
      others do in between. */
  lemma {:induction false} EveryDispatchEnds(before: seq<Event>, after: seq<Event>, d: DispatchId)
    requires d in Run(EMPTY, before).dispatches && OwnSteps(after, d) >= 6
    ensures d in Run(EMPTY, before + after).dispatches
    ensures IsOver(Run(EMPTY, before + after).dispatches[d].phase)
  {
    RunKeepsInv(EMPTY, before);
    RunCounts(EMPTY, before, d, 0);
    DispatchEnds(Run(EMPTY, before), after, d, FailedSends(EMPTY, before, d));
    RunConcat(EMPTY, before, after);
  }

  // ---------------------------------------------------------------------------------------------
  // A dispatch that is not disturbed is accepted.

  function Alone(d: DispatchId, steps: nat): seq<Event> {
    seq(steps, i requires 0 <= i < steps => Advance(d))
  }

  lemma {:induction false} OneMoreAlone(w: World, d: DispatchId, steps: nat)
    ensures Run(w, Alone(d, steps + 1)) == Run(Step(w, Advance(d)), Alone(d, steps))
  {
    assert Alone(d, steps + 1)[0] == Advance(d) && Alone(d, steps + 1)[1..] == Alone(d, steps);
  }

  lemma {:induction false} NothingMoreAlone(w: World, d: DispatchId, steps: nat)
    requires d in w.dispatches && w.dispatches[d].phase.Accepted?
    ensures Run(w, Alone(d, steps)) == w
  {
    if steps > 0 {
      OneMoreAlone(w, d, steps - 1);
      assert w.dispatches[d := w.dispatches[d]] == w.dispatches;
      NothingMoreAlone(w, d, steps - 1);
    }
  }

  /** The key has a worker whose receiver is not dropped yet. */
  predicate HasOpenWorker(c: Coordinator, key: Key) {
    key in c.workers && c.workers[key] in c.tasks && !c.tasks[c.workers[key]].phase.Gone?
  }

  /** The message went to this worker of the key. */
  predicate WentTo(w: World, d: DispatchId, key: Key, id: WorkerId) {
    && d in w.dispatches && w.dispatches[d].key == key && w.dispatches[d].phase.Accepted?
    && w.dispatches[d].phase.ticket < |SentOf(w, key)|
    && SentOf(w, key)[w.dispatches[d].phase.ticket] == Receipt(d, id)
    && id in w.c.tasks && w.c.tasks[id].key == key && key in w.c.workers && w.c.workers[key] == id
    && w.dispatches[d].phase.ticket in w.c.tasks[id].queue
  }

  lemma {:induction false} LookUpStep(w: World, d: DispatchId)
    requires TableIsSound(w) && d in w.dispatches && w.dispatches[d].phase.LookUp?
    ensures var key := w.dispatches[d].key;
            var w' := Step(w, Advance(d));
            && d in w'.dispatches && w'.dispatches[d].key == key && w'.sent == w.sent
            && key in w'.c.workers && w'.c.workers[key] in w'.c.tasks
            && w'.dispatches[d].phase == Send(w.dispatches[d].phase.attempt, w'.c.workers[key])
            && (key in w.c.workers ==> w'.c == w.c)
            && (key !in w.c.workers ==>
                  w'.c.workers[key] !in w.c.tasks && CanHandle(w'.c.tasks[w'.c.workers[key]]))
  {
  }

  lemma {:induction false} SendAlone(w: World, d: DispatchId, key: Key, id: WorkerId)
    requires TableIsSound(w) && d in w.dispatches && w.dispatches[d].key == key
    requires w.dispatches[d].phase.Send? && w.dispatches[d].phase.worker == id
    requires key in w.c.workers && w.c.workers[key] == id && HasOpenWorker(w.c, key)
    ensures var w' := Step(w, Advance(d));
            WentTo(w', d, key, id) && (CanHandle(w.c.tasks[id]) ==> CanHandle(w'.c.tasks[id]))
  {
    AcceptedSendStep(w, d);
    assert DispatchIsSound(w.c, w.dispatches[d]);
    var n := |SentOf(w, key)|;
    var queue := w.c.tasks[id].queue + [n];
    assert queue[|queue| - 1] == n;
  }

  /** The look-up and the send of an attempt that finds an open worker or none. */
  lemma {:induction false} AttemptAlone(w: World, d: DispatchId)
    requires TableIsSound(w) && d in w.dispatches && w.dispatches[d].phase.LookUp?
    requires w.dispatches[d].key in w.c.workers ==> HasOpenWorker(w.c, w.dispatches[d].key)
    ensures var key := w.dispatches[d].key;
            var w' := Step(Step(w, Advance(d)), Advance(d));
            && key in w'.c.workers && WentTo(w', d, key, w'.c.workers[key])
            && (if key in w.c.workers then w'.c.workers[key] == w.c.workers[key]
                else w'.c.workers[key] !in w.c.tasks && CanHandle(w'.c.tasks[w'.c.workers[key]]))
  {
    var w1 := Step(w, Advance(d));
    LookUpStep(w, d);
    StepKeepsTable(w, Advance(d));
    SendAlone(w1, d, w.dispatches[d].key, w1.c.workers[w.dispatches[d].key]);
    AcceptedSendStep(w1, d);
  }

  /** The whole first attempt when the worker that the table names is gone: the name is removed. */
  lemma {:induction false} FailedAttemptAlone(w: World, d: DispatchId)
    requires TableIsSound(w) && d in w.dispatches && w.dispatches[d].phase == LookUp(0)
    requires var key := w.dispatches[d].key;
             key in w.c.workers && w.c.workers[key] in w.c.tasks && w.c.tasks[w.c.workers[key]].phase.Gone?
    ensures var w' := Step(Step(Step(w, Advance(d)), Advance(d)), Advance(d));
            && d in w'.dispatches && w'.dispatches[d] == Dispatch(w.dispatches[d].key, LookUp(1))
            && w.dispatches[d].key !in w'.c.workers && w'.c.tasks == w.c.tasks
  {
    var w1 := Step(w, Advance(d));
    LookUpStep(w, d);
    AcceptedSendStep(w1, d);
    var w2 := Step(w1, Advance(d));
    assert w2.dispatches[d] == Dispatch(w.dispatches[d].key, CleanUp(0, w.c.workers[w.dispatches[d].key]));
  }

  lemma {:induction false} TwoAlone(w: World, d: DispatchId, more: nat)
    requires var w' := Step(Step(w, Advance(d)), Advance(d)); d in w'.dispatches && w'.dispatches[d].phase.Accepted?
    ensures Run(w, Alone(d, 2 + more)) == Step(Step(w, Advance(d)), Advance(d))
  {
    OneMoreAlone(w, d, 1 + more);
    OneMoreAlone(Step(w, Advance(d)), d, more);
    NothingMoreAlone(Step(Step(w, Advance(d)), Advance(d)), d, more);
  }

  lemma {:induction false} ThreeAlone(w: World, d: DispatchId, more: nat)
    ensures Run(w, Alone(d, 3 + more))
         == Run(Step(Step(Step(w, Advance(d)), Advance(d)), Advance(d)), Alone(d, more))
  {
    OneMoreAlone(w, d, 2 + more);
    OneMoreAlone(Step(w, Advance(d)), d, 1 + more);
    OneMoreAlone(Step(Step(w, Advance(d)), Advance(d)), d, more);
  }

  /** Accepted by the worker that the table named if its receiver was there, and otherwise by a new one,
      which can handle messages and is now in the table. */
  predicate AcceptedByTheRightWorker(w: World, w': World, d: DispatchId, key: Key) {
    && key in w'.c.workers && WentTo(w', d, key, w'.c.workers[key])
    && (if HasOpenWorker(w.c, key) then w'.c.workers[key] == w.c.workers[key]
        else w'.c.workers[key] !in w.c.tasks && CanHandle(w'.c.tasks[w'.c.workers[key]]))
  }

  lemma {:induction false} FirstAttemptSucceeds(w: World, d: DispatchId)
    requires TableIsSound(w) && d in w.dispatches && w.dispatches[d].phase.LookUp?
    requires w.dispatches[d].key in w.c.workers ==> HasOpenWorker(w.c, w.dispatches[d].key)
    ensures AcceptedByTheRightWorker(w, Run(w, Alone(d, 5)), d, w.dispatches[d].key)
  {
    AttemptAlone(w, d);
    TwoAlone(w, d, 3);
  }

  lemma {:induction false} SecondAttemptSucceeds(w: World, w3: World, d: DispatchId, key: Key)
    requires TableIsSound(w3) && d in w3.dispatches && w3.dispatches[d] == Dispatch(key, LookUp(1))
    requires key !in w3.c.workers && w3.c.tasks == w.c.tasks && !HasOpenWorker(w.c, key)
    ensures AcceptedByTheRightWorker(w, Run(w3, Alone(d, 2)), d, key)
  {
    AttemptAlone(w3, d);
    TwoAlone(w3, d, 0);
  }

  lemma {:induction false} GoneWorkerIsReplaced(w: World, d: DispatchId)
    requires TableIsSound(w) && d in w.dispatches && w.dispatches[d].phase == LookUp(0)
    requires w.dispatches[d].key in w.c.workers && !HasOpenWorker(w.c, w.dispatches[d].key)
    ensures AcceptedByTheRightWorker(w, Run(w, Alone(d, 5)), d, w.dispatches[d].key)
  {
    var w1 := Step(w, Advance(d));
    var w2 := Step(w1, Advance(d));
    StepKeepsTable(w, Advance(d));
    StepKeepsTable(w1, Advance(d));
    StepKeepsTable(w2, Advance(d));
    FailedAttemptAlone(w, d);
    SecondAttemptSucceeds(w, Step(w2, Advance(d)), d, w.dispatches[d].key);
    ThreeAlone(w, d, 2);
  }

  /** Whatever happened before: a dispatch that nothing else disturbs is accepted within five steps, by the
      worker that the table names if its receiver is there, and otherwise by a new worker, which can handle
      messages: a worker that is gone is taken out of the table and replaced. */
  lemma {:induction false} UndisturbedDispatchIsAccepted(events: seq<Event>, d: DispatchId)
    requires var w := Run(EMPTY, events); d in w.dispatches && w.dispatches[d].phase == LookUp(0)
    ensures var w := Run(EMPTY, events);
            AcceptedByTheRightWorker(w, Run(w, Alone(d, 5)), d, w.dispatches[d].key)
  {
    var w := Run(EMPTY, events);
    RunKeepsInv(EMPTY, events);
    if w.dispatches[d].key in w.c.workers && !HasOpenWorker(w.c, w.dispatches[d].key) {
      GoneWorkerIsReplaced(w, d);
    } else {
      FirstAttemptSucceeds(w, d);
    }
  }
}
