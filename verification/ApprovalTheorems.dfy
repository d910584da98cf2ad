/** What holds of approvals in every run. */
module ApprovalTheorems {
  import opened Approvals

  // ---------------------------------------------------------------------------------------------
  // The steps keep the invariant.

  lemma {:induction false} InitialIsRight()
    ensures Inv(Initial())
  {
  }

  /** Requests keep their owners. */
  predicate KeepsIds(s: State, t: State) {
    && |s.requesters| <= |t.requesters|
    && forall w :: 0 <= w < |s.requesters| ==> KeepsId(s.requesters[w], t.requesters[w])
  }

  predicate KeepsId(x: Requester, y: Requester) {
    && x.user == y.user
    && (HasId(x.phase) ==> HasId(y.phase) && x.phase.n == y.phase.n)
  }

  lemma {:induction false} StepKeepsIds(s: State, e: Event)
    ensures KeepsIds(s, Step(s, e))
  {
  }

  lemma {:induction false} OwnedStaysOwned(s: State, t: State, id: string, user: string)
    requires KeepsIds(s, t) && IsOwned(s, id, user)
    ensures IsOwned(t, id, user)
  {
    var w: nat :| w < |s.requesters| && Owns(s, w, id, user);
    assert KeepsId(s.requesters[w], t.requesters[w]);
    assert Owns(t, w, id, user);
  }

  /** Only the requester of an event can get a number, and it gets the next one. */
  predicate KeepsNumber(s: State, e: Event, t: State, w: nat)
    requires w < |t.requesters|
  {
    HasNumber(t.requesters[w].phase) ==>
      || (w < |s.requesters| && HasNumber(s.requesters[w].phase) && s.requesters[w].phase.n == t.requesters[w].phase.n)
      || (e.Number? && w == e.w && t.requesters[w].phase.n == s.registry.nextId < t.registry.nextId)
  }

  lemma {:induction false} StepMovesOn(s: State, e: Event)
    ensures var t := Step(s, e);
            && s.registry.nextId <= t.registry.nextId
            && forall w: nat :: w < |t.requesters| ==> KeepsNumber(s, e, t, w)
  {
  }

  lemma {:induction false} StepKeepsNumbers(s: State, e: Event)
    requires NumbersAreFresh(s)
    ensures NumbersAreFresh(Step(s, e))
  {
    StepMovesOn(s, e);
    NumbersStayFresh(s, e, Step(s, e));
  }

  lemma {:induction false} NumbersStayFresh(s: State, e: Event, t: State)
    requires NumbersAreFresh(s) && s.registry.nextId <= t.registry.nextId
    requires forall w: nat :: w < |t.requesters| ==> KeepsNumber(s, e, t, w)
    ensures NumbersAreFresh(t)
  {
    forall w: nat | w < |t.requesters| && HasNumber(t.requesters[w].phase)
      ensures t.requesters[w].phase.n < t.registry.nextId
    {
      assert KeepsNumber(s, e, t, w);
    }
    forall v: nat, w: nat | v < w < |t.requesters| && HasNumber(t.requesters[v].phase)
        && HasNumber(t.requesters[w].phase)
      ensures t.requesters[v].phase.n != t.requesters[w].phase.n
    {
      assert KeepsNumber(s, e, t, v) && KeepsNumber(s, e, t, w);
    }
  }

  lemma {:induction false} StepKeepsPending(s: State, e: Event)
    requires Inv(s)
    ensures PendingIsOwned(Step(s, e))
  {
    var t := Step(s, e);
    StepKeepsIds(s, e);
    forall id | id in t.registry.pending
      ensures id !in t.registry.sent && IsOwned(t, id, t.registry.pending[id])
    {
      PendingOfStep(s, e, id);
      if id in s.registry.pending && s.registry.pending[id] == t.registry.pending[id] {
        OwnedStaysOwned(s, t, id, s.registry.pending[id]);
      }
    }
  }

  /** What is pending after a step was pending before, or is the event's own new request. */
  lemma {:induction false} PendingOfStep(s: State, e: Event, id: string)
    requires RequestersAreRight(s) && id in Step(s, e).registry.pending
    requires id in s.registry.pending ==> id !in s.registry.sent
    ensures var t := Step(s, e);
            && id !in t.registry.sent
            && (|| (id in s.registry.pending && s.registry.pending[id] == t.registry.pending[id])
                || (e.Register? && Owns(t, e.w, id, t.registry.pending[id])))
  {
    if e.Register? && e.w < |s.requesters| {
      assert RequesterIsRight(s.registry, s.requesters[e.w].phase);
    }
  }

  lemma {:induction false} OtherStepsKeepResolutions(s: State, e: Event, t: State)
    requires ResolutionsAreSent(s) && KeepsIds(s, t)
    requires t.resolutions == s.resolutions && t.registry.sent == s.registry.sent
    ensures ResolutionsAreSent(t)
  {
    forall k | 0 <= k < |t.resolutions|
      ensures IsResolution(t, t.resolutions[k])
    {
      assert IsResolution(s, s.resolutions[k]);
      OwnedStaysOwned(s, t, s.resolutions[k].id, s.resolutions[k].user);
    }
    forall id | id in t.registry.sent
      ensures WasResolved(t, id)
    {
      assert WasResolved(s, id);
    }
  }

  lemma {:induction false} ResolvingKeepsResolutions(s: State, t: State, x: Resolution)
    requires ResolutionsAreSent(s) && IsOwned(s, x.id, x.user) && x.id !in s.registry.sent
    requires t.requesters == s.requesters && t.resolutions == s.resolutions + [x]
    requires t.registry.sent == s.registry.sent[x.id := x.decision]
    ensures ResolutionsAreSent(t)
  {
    forall k | 0 <= k < |t.resolutions|
      ensures IsResolution(t, t.resolutions[k])
      ensures k < |s.resolutions| ==> t.resolutions[k].id != x.id
    {
      if k < |s.resolutions| {
        assert IsResolution(s, s.resolutions[k]);
      }
      OwnedStaysOwned(s, t, t.resolutions[k].id, t.resolutions[k].user);
    }
    ResolvedStayResolved(s, t, x);
  }

  lemma {:induction false} ResolvedStayResolved(s: State, t: State, x: Resolution)
    requires ResolutionsAreSent(s) && t.resolutions == s.resolutions + [x]
    ensures forall id :: id in s.registry.sent || id == x.id ==> WasResolved(t, id)
  {
    forall id | id in s.registry.sent || id == x.id
      ensures WasResolved(t, id)
    {
      if id == x.id {
        assert t.resolutions[|s.resolutions|].id == id;
      } else {
        var k :| 0 <= k < |s.resolutions| && s.resolutions[k].id == id;
        assert t.resolutions[k] == s.resolutions[k];
      }
    }
  }

  lemma {:induction false} ShapeOfStep(s: State, e: Event)
    ensures var t := Step(s, e);
            if e.ResolveCall? && IsResolvable(s.registry, e.id, e.user) then
              && t.requesters == s.requesters && t.resolutions == s.resolutions + [Resolution(e.id, e.user, e.decision)]
              && t.registry.sent == s.registry.sent[e.id := e.decision]
            else t.resolutions == s.resolutions && t.registry.sent == s.registry.sent
  {
    assert s.resolutions + [] == s.resolutions;
  }

  lemma {:induction false} StepKeepsResolutions(s: State, e: Event)
    requires Inv(s)
    ensures ResolutionsAreSent(Step(s, e))
  {
    ShapeOfStep(s, e);
    StepKeepsIds(s, e);
    if e.ResolveCall? && IsResolvable(s.registry, e.id, e.user) {
      ResolvingKeepsResolutions(s, Step(s, e), Resolution(e.id, e.user, e.decision));
    } else {
      OtherStepsKeepResolutions(s, e, Step(s, e));
    }
  }

  // Requesters.

  lemma {:induction false} ResolveKeepsRequester(r: Registry, id: string, user: string, decision: Decision,
      phase: Phase)
    requires RequesterIsRight(r, phase) && (id in r.pending ==> id !in r.sent)
    ensures RequesterIsRight(Resolve(r, id, user, decision).0, phase)
  {
  }

  lemma {:induction false} TakeIdKeepsRequester(r: Registry, phase: Phase)
    requires RequesterIsRight(r, phase)
    ensures RequesterIsRight(TakeId(r), phase)
  {
  }

  lemma {:induction false} InsertKeepsRequester(r: Registry, n: nat, user: string, phase: Phase)
    requires RequesterIsRight(r, phase) && (HasNumber(phase) ==> phase.n != n)
    ensures RequesterIsRight(Insert(r, ApprovalId(n), user), phase)
  {
    if HasNumber(phase) {
      ApprovalIdsAreDistinct(n, phase.n);
    }
  }

  lemma {:induction false} RemoveKeepsRequester(r: Registry, n: nat, phase: Phase)
    requires RequesterIsRight(r, phase) && (HasNumber(phase) ==> phase.n != n)
    ensures RequesterIsRight(Remove(r, ApprovalId(n)), phase)
  {
    if HasNumber(phase) {
      ApprovalIdsAreDistinct(n, phase.n);
    }
  }

  lemma {:induction false} OtherRequesterStaysRight(s: State, e: Event, w: nat)
    requires Inv(s) && w < |s.requesters| && !e.Begin? && (e.ResolveCall? || e.w != w)
    ensures Step(s, e).requesters[w] == s.requesters[w]
    ensures RequesterIsRight(Step(s, e).registry, s.requesters[w].phase)
  {
    var phase := s.requesters[w].phase;
    assert RequesterIsRight(s.registry, phase);
    match e
    case ResolveCall(id, user, decision) => ResolveKeepsRequester(s.registry, id, user, decision, phase);
    case Number(v) => TakeIdKeepsRequester(s.registry, phase);
    case Register(v) =>
      if v < |s.requesters| && s.requesters[v].phase.Numbered? {
        InsertKeepsRequester(s.registry, s.requesters[v].phase.n, s.requesters[v].user, phase);
      }
    case Finish(v) =>
      if v < |s.requesters| && s.requesters[v].phase.Decided? {
        RemoveKeepsRequester(s.registry, s.requesters[v].phase.n, phase);
      }
    case _ =>
  }

  lemma {:induction false} OwnStepIsRight(s: State, e: Event)
    requires Inv(s) && !e.Begin? && !e.ResolveCall? && e.w < |s.requesters|
    ensures RequesterIsRight(Step(s, e).registry, Step(s, e).requesters[e.w].phase)
  {
    assert RequesterIsRight(s.registry, s.requesters[e.w].phase);
    assert PendingIsOwned(s);
    match e
    case Number(w) => NextIdIsUnknown(s);
    case Polled(w, isTimeOver) => PolledIsRight(s, e);
    case _ => OwnOtherStepIsRight(s, e);
  }

  lemma {:induction false} PolledIsRight(s: State, e: Event)
    requires e.Polled? && e.w < |s.requesters| && RequesterIsRight(s.registry, s.requesters[e.w].phase)
    ensures RequesterIsRight(Step(s, e).registry, Step(s, e).requesters[e.w].phase)
  {
  }

  lemma {:induction false} OwnOtherStepIsRight(s: State, e: Event)
    requires (e.Register? || e.Prompted? || e.Finish? || e.Cancel?) && e.w < |s.requesters|
    requires RequesterIsRight(s.registry, s.requesters[e.w].phase)
    ensures RequesterIsRight(Step(s, e).registry, Step(s, e).requesters[e.w].phase)
  {
  }

  lemma {:induction false} NextIdIsUnknown(s: State)
    requires Inv(s)
    ensures !IsKnown(s.registry, ApprovalId(s.registry.nextId))
  {
    var id := ApprovalId(s.registry.nextId);
    if IsKnown(s.registry, id) {
      KnownIsOwned(s, id);
      var w: nat :| w < |s.requesters| && HasThisId(s.requesters[w].phase, id);
      ApprovalIdsAreDistinct(s.requesters[w].phase.n, s.registry.nextId);
    }
  }

  predicate HasThisId(phase: Phase, id: string) {
    HasId(phase) && ApprovalId(phase.n) == id
  }

  lemma {:induction false} KnownIsOwned(s: State, id: string)
    requires Inv(s) && IsKnown(s.registry, id)
    ensures exists w: nat :: w < |s.requesters| && HasThisId(s.requesters[w].phase, id)
  {
    if id in s.registry.pending {
      assert IsOwned(s, id, s.registry.pending[id]);
    } else {
      var k :| 0 <= k < |s.resolutions| && s.resolutions[k].id == id;
      assert IsResolution(s, s.resolutions[k]);
    }
  }

  lemma {:induction false} StepKeepsRequesters(s: State, e: Event)
    requires Inv(s)
    ensures RequestersAreRight(Step(s, e))
  {
    var t := Step(s, e);
    forall w | 0 <= w < |t.requesters|
      ensures RequesterIsRight(t.registry, t.requesters[w].phase)
    {
      if e.Begin? {
        assert w < |s.requesters| ==> RequesterIsRight(s.registry, s.requesters[w].phase);
      } else if e.ResolveCall? || e.w != w {
        OtherRequesterStaysRight(s, e, w);
      } else {
        OwnStepIsRight(s, e);
      }
    }
  }

  lemma {:induction false} StepKeepsInv(s: State, e: Event)
    requires Inv(s)
    ensures Inv(Step(s, e))
  {
    StepKeepsNumbers(s, e);
    StepKeepsPending(s, e);
    StepKeepsResolutions(s, e);
    StepKeepsRequesters(s, e);
  }

  lemma {:induction false} RunKeepsInv(s: State, events: seq<Event>)
    requires Inv(s)
    ensures Inv(Run(s, events))
    decreases |events|
  {
    if events != [] {
      StepKeepsInv(s, events[0]);
      RunKeepsInv(Step(s, events[0]), events[1..]);
    }
  }

  lemma {:induction false} ReachableIsRight(events: seq<Event>)
    ensures Inv(Run(Initial(), events))
  {
    InitialIsRight();
    RunKeepsInv(Initial(), events);
  }

  // ---------------------------------------------------------------------------------------------
  // Main results.

  /** No two requests ever get one id. */
  lemma {:induction false} IdsAreNeverReused(events: seq<Event>, v: nat, w: nat)
    requires var s := Run(Initial(), events);
             && v < |s.requesters| && w < |s.requesters| && v != w
             && HasNumber(s.requesters[v].phase) && HasNumber(s.requesters[w].phase)
    ensures var s := Run(Initial(), events);
            ApprovalId(s.requesters[v].phase.n) != ApprovalId(s.requesters[w].phase.n)
  {
    ReachableIsRight(events);
    var s := Run(Initial(), events);
    ApprovalIdsAreDistinct(s.requesters[v].phase.n, s.requesters[w].phase.n);
  }

  /** `resolve` returns true at most once for an id, and only to the user who made the request. */
  lemma {:induction false} EachIdIsResolvedOnce(events: seq<Event>, j: nat, k: nat)
    requires j < |Run(Initial(), events).resolutions| && k < |Run(Initial(), events).resolutions|
    ensures var s := Run(Initial(), events);
            && (s.resolutions[j].id == s.resolutions[k].id <==> j == k)
            && IsOwned(s, s.resolutions[j].id, s.resolutions[j].user)
  {
    ReachableIsRight(events);
    var s := Run(Initial(), events);
    assert IsResolution(s, s.resolutions[j]);
  }

  lemma {:induction false} OwnerIsUnique(s: State, v: nat, w: nat, id: string, user: string, user': string)
    requires Inv(s) && Owns(s, v, id, user) && Owns(s, w, id, user')
    ensures v == w && user == user'
  {
    ApprovalIdsAreDistinct(s.requesters[v].phase.n, s.requesters[w].phase.n);
  }

  /** A requester is told a decision other than the timeout only if its own user resolved its own
      request with that decision; a request nobody resolved can only time out. */
  lemma {:induction false} DecisionIsTheUsers(events: seq<Event>, w: nat)
    requires var s := Run(Initial(), events);
             && w < |s.requesters| && s.requesters[w].phase.Returned? && s.requesters[w].phase.decision != TimedOut
    ensures var s := Run(Initial(), events);
            var x := s.requesters[w];
            Resolution(ApprovalId(x.phase.n), x.user, x.phase.decision) in s.resolutions
  {
    ReachableIsRight(events);
    var s := Run(Initial(), events);
    var x := s.requesters[w];
    var id := ApprovalId(x.phase.n);
    assert RequesterIsRight(s.registry, x.phase);
    assert WasResolved(s, id);
    var k :| 0 <= k < |s.resolutions| && s.resolutions[k].id == id;
    assert IsResolution(s, s.resolutions[k]);
    var v: nat :| v < |s.requesters| && Owns(s, v, id, s.resolutions[k].user);
    OwnerIsUnique(s, v, w, id, s.resolutions[k].user, x.user);
    assert s.resolutions[k] == Resolution(id, x.user, x.phase.decision);
  }

  /** A registered request is in the registry exactly until it is resolved or its requester has
      returned. So one whose requester gave up stays there until its user answers it. */
  lemma {:induction false} PendingIff(events: seq<Event>, w: nat)
    requires w < |Run(Initial(), events).requesters| && HasId(Run(Initial(), events).requesters[w].phase)
    ensures var s := Run(Initial(), events);
            var phase := s.requesters[w].phase;
            ApprovalId(phase.n) in s.registry.pending <==> !phase.Returned? && !WasResolved(s, ApprovalId(phase.n))
  {
    ReachableIsRight(events);
    var s := Run(Initial(), events);
    var id := ApprovalId(s.requesters[w].phase.n);
    assert RequesterIsRight(s.registry, s.requesters[w].phase);
    if WasResolved(s, id) {
      var k :| 0 <= k < |s.resolutions| && s.resolutions[k].id == id;
      assert IsResolution(s, s.resolutions[k]);
    }
  }

  /** Requester `w` made this request for this user, has not returned, and nobody has resolved it. */
  predicate IsOpenFor(s: State, w: nat, id: string, user: string) {
    Owns(s, w, id, user) && !s.requesters[w].phase.Returned? && !WasResolved(s, id)
  }

  /** `resolve` returns true exactly for the user of a registered request that was neither resolved nor
      taken back. */
  lemma {:induction false} ResolveSucceedsIff(events: seq<Event>, id: string, user: string, decision: Decision)
    ensures var s := Run(Initial(), events);
            Resolve(s.registry, id, user, decision).1
            <==> exists w: nat :: w < |s.requesters| && IsOpenFor(s, w, id, user)
  {
    ReachableIsRight(events);
    var s := Run(Initial(), events);
    if Resolve(s.registry, id, user, decision).1 {
      var w: nat :| w < |s.requesters| && Owns(s, w, id, user);
      PendingIff(events, w);
      assert IsOpenFor(s, w, id, user);
    } else if w: nat :| w < |s.requesters| && IsOpenFor(s, w, id, user) {
      PendingIff(events, w);
      var v: nat :| v < |s.requesters| && Owns(s, v, id, s.registry.pending[id]);
      OwnerIsUnique(s, v, w, id, s.registry.pending[id], user);
    }
  }

  // ---------------------------------------------------------------------------------------------
  // What an accepted resolution is worth.

  /** The requester can still be told `decision`, and nothing else. */
  predicate WillBeTold(s: State, w: nat, n: nat, decision: Decision) {
    && w < |s.requesters| && HasId(s.requesters[w].phase) && s.requesters[w].phase.n == n
    && match s.requesters[w].phase
       case Decided(_, d) => d == decision
       case Returned(_, d) => d == decision
       case Abandoned(_) => true
       case _ => ApprovalId(n) in s.registry.sent && s.registry.sent[ApprovalId(n)] == decision
  }

  lemma {:induction false} SentStaysSent(s: State, e: Event, id: string)
    requires Inv(s) && id in s.registry.sent
    ensures id in Step(s, e).registry.sent && Step(s, e).registry.sent[id] == s.registry.sent[id]
  {
    ShapeOfStep(s, e);
  }

  lemma {:induction false} StepKeepsTold(s: State, e: Event, w: nat, n: nat, decision: Decision)
    requires Inv(s) && WillBeTold(s, w, n, decision)
    ensures WillBeTold(Step(s, e), w, n, decision)
  {
    if ApprovalId(n) in s.registry.sent {
      SentStaysSent(s, e, ApprovalId(n));
    }
    if e.Begin? || e.ResolveCall? || e.w != w {
      OthersStay(s, e, w);
    } else {
      OwnStepKeepsTold(s, e, n, decision);
    }
  }

  lemma {:induction false} OthersStay(s: State, e: Event, w: nat)
    requires w < |s.requesters| && (e.Begin? || e.ResolveCall? || e.w != w)
    ensures w < |Step(s, e).requesters| && Step(s, e).requesters[w] == s.requesters[w]
  {
  }

  lemma {:induction false} OwnStepKeepsTold(s: State, e: Event, n: nat, decision: Decision)
    requires !e.Begin? && !e.ResolveCall? && WillBeTold(s, e.w, n, decision)
    requires ApprovalId(n) in s.registry.sent ==>
               ApprovalId(n) in Step(s, e).registry.sent
                   && Step(s, e).registry.sent[ApprovalId(n)] == s.registry.sent[ApprovalId(n)]
    ensures WillBeTold(Step(s, e), e.w, n, decision)
  {
  }

  lemma {:induction false} RunKeepsTold(s: State, events: seq<Event>, w: nat, n: nat, decision: Decision)
    requires Inv(s) && WillBeTold(s, w, n, decision)
    ensures WillBeTold(Run(s, events), w, n, decision)
    decreases |events|
  {
    if events != [] {
      StepKeepsTold(s, events[0], w, n, decision);
      StepKeepsInv(s, events[0]);
      RunKeepsTold(Step(s, events[0]), events[1..], w, n, decision);
    }
  }

  /** A resolution that was accepted reaches the requester exactly if the timeout had not been taken
      by then: a requester that returns after it returns that decision, or else the timeout. */
  lemma {:induction false} AcceptedResolutionIsToldUnlessTooLate(before: seq<Event>, user: string, decision: Decision,
      after: seq<Event>,
      w: nat)
    requires var s := Run(Initial(), before);
             && w < |s.requesters| && HasId(s.requesters[w].phase)
             && Resolve(s.registry, ApprovalId(s.requesters[w].phase.n), user, decision).1
    ensures var s := Run(Initial(), before);
            var n := s.requesters[w].phase.n;
            var t := Run(Step(s, ResolveCall(ApprovalId(n), user, decision)), after);
            && w < |t.requesters|
            && (t.requesters[w].phase.Returned? ==>
                  t.requesters[w].phase == Returned(n, if s.requesters[w].phase.Decided? then TimedOut else decision))
  {
    ReachableIsRight(before);
    var s := Run(Initial(), before);
    var n := s.requesters[w].phase.n;
    var e := ResolveCall(ApprovalId(n), user, decision);
    assert RequesterIsRight(s.registry, s.requesters[w].phase);
    StepKeepsInv(s, e);
    var told := if s.requesters[w].phase.Decided? then TimedOut else decision;
    assert WillBeTold(Step(s, e), w, n, told);
    RunKeepsTold(Step(s, e), after, w, n, told);
  }

  /** Once resolved, a waiting requester is told so by its next poll even if its time is over. */
  lemma {:induction false} NextPollTells(s: State, w: nat, isTimeOver: bool)
    requires Inv(s) && w < |s.requesters| && s.requesters[w].phase.Waiting?
    requires ApprovalId(s.requesters[w].phase.n) in s.registry.sent
    ensures var n := s.requesters[w].phase.n;
            Step(s, Polled(w, isTimeOver)).requesters[w].phase == Decided(n, s.registry.sent[ApprovalId(n)])
  {
  }

  /** A callback can be told that its approval was accepted although the requester returns the timeout. */
  lemma {:induction false} ApprovalCanComeTooLate(user: string)
    ensures var id := ApprovalId(1);
            var before := [Begin(user), Number(0), Register(0), Prompted(0, true), Polled(0, true)];
            var s := Run(Initial(), before);
            var t := Run(s, [ResolveCall(id, user, Approved), Finish(0)]);
            && t.resolutions == [Resolution(id, user, Approved)]
            && t.requesters == [Requester(user, Returned(1, TimedOut))]
  {
    var id := ApprovalId(1);
    var s0 := Initial();
    var s1 := Step(s0, Begin(user));
    var s2 := Step(s1, Number(0));
    var s3 := Step(s2, Register(0));
    var s4 := Step(s3, Prompted(0, true));
    var s5 := Step(s4, Polled(0, true));
    RunOfFive(s0, Begin(user), Number(0), Register(0), Prompted(0, true), Polled(0, true));
    RunOfTwo(s5, ResolveCall(id, user, Approved), Finish(0));
    assert s3.registry == Registry(2, map[id := user], map[]);
    assert s5.requesters == [Requester(user, Decided(1, TimedOut))] && s5.registry == s3.registry;
    var s6 := Step(s5, ResolveCall(id, user, Approved));
    assert s6.requesters == s5.requesters && s6.resolutions == [Resolution(id, user, Approved)];
    assert Step(s6, Finish(0)).requesters == [Requester(user, Returned(1, TimedOut))];
  }

  lemma {:induction false} RunOfCons(s: State, e: Event, events: seq<Event>)
    ensures Run(s, [e] + events) == Run(Step(s, e), events)
    ensures Run(s, []) == s
  {
    assert ([e] + events)[1..] == events;
  }

  lemma {:induction false} RunOfTwo(s: State, a: Event, b: Event)
    ensures Run(s, [a, b]) == Step(Step(s, a), b)
  {
    RunOfCons(s, a, [b]);
    RunOfCons(Step(s, a), b, []);
    assert [a, b] == [a] + [b] && [b] == [b] + [];
  }

  lemma {:induction false} RunOfFive(s: State, a: Event, b: Event, c: Event, d: Event, e: Event)
    ensures Run(s, [a, b, c, d, e]) == Step(Step(Step(Step(Step(s, a), b), c), d), e)
  {
    RunOfCons(s, a, [b, c, d, e]);
    RunOfCons(Step(s, a), b, [c, d, e]);
    RunOfCons(Step(Step(s, a), b), c, [d, e]);
    RunOfTwo(Step(Step(Step(s, a), b), c), d, e);
    assert [a, b, c, d, e] == [a] + [b, c, d, e] && [b, c, d, e] == [b] + [c, d, e] && [c, d, e] == [c] + [d, e];
  }
}
