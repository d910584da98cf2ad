/** What a requester is told, and when: the decision of a resolution at once, the timeout not before the
    time is over, and nothing until then. */
module ApprovalOutcomes {
  import opened Approvals
  import opened ApprovalTheorems

  predicate IsTold(phase: Phase, decision: Decision) {
    (phase.Decided? || phase.Returned?) && phase.decision == decision
  }

  /** The time was over at one of its polls. */
  predicate TimeWasOver(events: seq<Event>, w: nat) {
    exists i :: 0 <= i < |events| && events[i] == Polled(w, true)
  }

  /** Somebody resolved its request with this decision. */
  predicate WasResolvedTo(s: State, w: nat, decision: Decision) {
    && w < |s.requesters| && HasId(s.requesters[w].phase)
    && exists k :: 0 <= k < |s.resolutions| && s.resolutions[k].decision == decision
        && s.resolutions[k].id == ApprovalId(s.requesters[w].phase.n)
  }

  predicate TimeoutIsExplained(events: seq<Event>, s: State, w: nat) {
    w < |s.requesters| && IsTold(s.requesters[w].phase, TimedOut) ==>
      TimeWasOver(events, w) || WasResolvedTo(s, w, TimedOut)
  }

  /** In every execution a waiting requester's next poll tells the decision that its request was resolved
      to; if it was not resolved, the poll tells the timeout once the time is over, and nothing before. */
  lemma {:induction false} PollTellsIff(events: seq<Event>, w: nat, isTimeOver: bool)
    requires var s := Run(Initial(), events); w < |s.requesters| && s.requesters[w].phase.Waiting?
    ensures var s := Run(Initial(), events);
            var n := s.requesters[w].phase.n;
            var t := Step(s, Polled(w, isTimeOver));
            && w < |t.requesters| && t.registry == s.registry && t.resolutions == s.resolutions
            && (forall decision :: t.requesters[w].phase == Decided(n, decision) <==>
                  WasResolvedTo(s, w, decision)
                  || (decision == TimedOut && isTimeOver && !WasResolved(s, ApprovalId(n))))
            && (!isTimeOver && !WasResolved(s, ApprovalId(n)) ==> t == s)
  {
    var s := Run(Initial(), events);
    var id := ApprovalId(s.requesters[w].phase.n);
    ReachableIsRight(events);
    assert RequesterIsRight(s.registry, s.requesters[w].phase);
    forall decision
      ensures WasResolvedTo(s, w, decision) <==> id in s.registry.sent && s.registry.sent[id] == decision
    {
      SentIsResolution(s, w, decision);
    }
  }

  lemma {:induction false} SentIsResolution(s: State, w: nat, decision: Decision)
    requires Inv(s) && w < |s.requesters| && HasId(s.requesters[w].phase)
    ensures var id := ApprovalId(s.requesters[w].phase.n);
            && (WasResolvedTo(s, w, decision) <==> id in s.registry.sent && s.registry.sent[id] == decision)
            && (WasResolved(s, id) <==> id in s.registry.sent)
  {
    var id := ApprovalId(s.requesters[w].phase.n);
    forall k | 0 <= k < |s.resolutions| && s.resolutions[k].id == id
      ensures id in s.registry.sent && s.registry.sent[id] == s.resolutions[k].decision
    {
      assert IsResolution(s, s.resolutions[k]);
    }
    if id in s.registry.sent {
      assert WasResolved(s, id);
      var k :| 0 <= k < |s.resolutions| && s.resolutions[k].id == id;
      assert s.resolutions[k].decision == s.registry.sent[id];
    }
  }

  lemma {:induction false} StepTellsTimeout(s: State, e: Event, w: nat)
    requires Inv(s) && w < |Step(s, e).requesters| && IsTold(Step(s, e).requesters[w].phase, TimedOut)
    requires !(w < |s.requesters| && IsTold(s.requesters[w].phase, TimedOut))
    ensures e == Polled(w, true) || WasResolvedTo(Step(s, e), w, TimedOut)
  {
    if w < |s.requesters| && (e.Begin? || e.ResolveCall? || e.w != w) {
      OthersStay(s, e, w);
    } else if w < |s.requesters| && e != Polled(w, true) {
      assert RequesterIsRight(s.registry, s.requesters[w].phase);
      StepKeepsInv(s, e);
      SentIsResolution(Step(s, e), w, TimedOut);
    }
  }

  lemma {:induction false} ResolutionsStay(s: State, e: Event, w: nat, decision: Decision)
    requires WasResolvedTo(s, w, decision)
    ensures WasResolvedTo(Step(s, e), w, decision) || w >= |Step(s, e).requesters|
        || !HasId(Step(s, e).requesters[w].phase)
  {
    var t := Step(s, e);
    ShapeOfStep(s, e);
    var k :| 0 <= k < |s.resolutions| && s.resolutions[k].decision == decision
        && s.resolutions[k].id == ApprovalId(s.requesters[w].phase.n);
    assert k < |t.resolutions| && t.resolutions[k] == s.resolutions[k];
    if !e.Begin? && !e.ResolveCall? && e.w == w {
      SameNumber(s, e);
    }
  }

  lemma {:induction false} SameNumber(s: State, e: Event)
    requires !e.Begin? && !e.ResolveCall? && e.w < |s.requesters| && HasId(s.requesters[e.w].phase)
    ensures HasId(Step(s, e).requesters[e.w].phase)
    ensures Step(s, e).requesters[e.w].phase.n == s.requesters[e.w].phase.n
  {
  }

  lemma {:induction false} TimeStaysOver(before: seq<Event>, e: Event, w: nat)
    ensures TimeWasOver(before, w) || e == Polled(w, true) ==> TimeWasOver(before + [e], w)
  {
    if TimeWasOver(before, w) {
      var i :| 0 <= i < |before| && before[i] == Polled(w, true);
      assert (before + [e])[i] == Polled(w, true);
    }
    assert (before + [e])[|before|] == e;
  }

  lemma {:induction false} StepExplainsTimeout(before: seq<Event>, s: State, e: Event, w: nat)
    requires Inv(s) && TimeoutIsExplained(before, s, w)
    ensures TimeoutIsExplained(before + [e], Step(s, e), w)
  {
    var t := Step(s, e);
    if w < |t.requesters| && IsTold(t.requesters[w].phase, TimedOut) {
      if w < |s.requesters| && IsTold(s.requesters[w].phase, TimedOut) {
        if !TimeWasOver(before, w) {
          ResolutionsStay(s, e, w, TimedOut);
        }
      } else {
        StepTellsTimeout(s, e, w);
      }
      TimeStaysOver(before, e, w);
    }
  }

  lemma {:induction false} RunExplainsTimeout(before: seq<Event>, s: State, events: seq<Event>, w: nat)
    requires Inv(s) && TimeoutIsExplained(before, s, w)
    ensures TimeoutIsExplained(before + events, Run(s, events), w)
    decreases |events|
  {
    if events == [] {
      assert before + events == before;
    } else {
      StepKeepsInv(s, events[0]);
      StepExplainsTimeout(before, s, events[0], w);
      RunExplainsTimeout(before + [events[0]], Step(s, events[0]), events[1..], w);
      assert before + [events[0]] + events[1..] == before + events;
    }
  }

  /** A requester is told the timeout only if the time was over at one of its polls, or if that is what its
      request was resolved to. */
  lemma {:induction false} TimeoutIsNotEarly(events: seq<Event>, w: nat)
    requires var s := Run(Initial(), events); w < |s.requesters| && IsTold(s.requesters[w].phase, TimedOut)
    ensures TimeWasOver(events, w) || WasResolvedTo(Run(Initial(), events), w, TimedOut)
  {
    ReachableIsRight([]);
    RunExplainsTimeout([], Initial(), events, w);
    assert [] + events == events;
  }

  // ---------------------------------------------------------------------------------------------
  // Cancelled requesters.

  predicate IsCancelled(s: State, w: nat) {
    w < |s.requesters| && (s.requesters[w].phase.Cancelled? || s.requesters[w].phase.Abandoned?)
  }

  lemma {:induction false} CancelledStaysCancelled(s: State, events: seq<Event>, w: nat)
    requires IsCancelled(s, w)
    ensures IsCancelled(Run(s, events), w)
    decreases |events|
  {
    if events != [] {
      if events[0].Begin? || events[0].ResolveCall? || events[0].w != w {
        OthersStay(s, events[0], w);
      }
      CancelledStaysCancelled(Step(s, events[0]), events[1..], w);
    }
  }

  /** A requester that is cancelled before it has returned is told nothing any more, not even a decision
      that its channel had already given; and its entry stays in the registry. */
  lemma {:induction false} CancelledIsNeverTold(s: State, after: seq<Event>, w: nat, decision: Decision)
    requires w < |s.requesters| && !s.requesters[w].phase.Returned?
    ensures Step(s, Cancel(w)).registry == s.registry
    ensures var t := Run(Step(s, Cancel(w)), after);
            w < |t.requesters| && !IsTold(t.requesters[w].phase, decision)
  {
    CancelledStaysCancelled(Step(s, Cancel(w)), after, w);
  }
}
