/** What every interleaving of starts, completions, kills and waits keeps. */
module AsyncToolRunsTheorems {
  import opened Options
  import opened AsyncToolRuns

  // ---------------------------------------------------------------------------------------------
  // One locked section at a time.

  /** Claiming succeeds exactly when every id is the caller's. It touches nothing but the claim flag
      of the ids before the first one that is not. */
  lemma {:induction false} ClaimRunsSpec(runs: Runs, ids: seq<RunId>, owner: Owner)
    ensures var (claimed, ok) := ClaimRuns(runs, ids, owner);
            && (ok <==> forall i :: 0 <= i < |ids| ==> Visible(runs, ids[i], owner))
            && claimed.Keys == runs.Keys
            && (forall id <- runs :: claimed[id] == runs[id] ||
                  (claimed[id] == runs[id].(claimed := true) && id in ids && runs[id].owner == owner))
            && (ok ==> forall id <- ids :: id in claimed && claimed[id].claimed)
    decreases |ids|
  {
    if ids != [] && Visible(runs, ids[0], owner) {
      var next := runs[ids[0] := runs[ids[0]].(claimed := true)];
      ClaimRunsSpec(next, ids[1..], owner);
      assert forall id :: Visible(next, id, owner) <==> Visible(runs, id, owner);
      assert forall i :: 0 < i < |ids| ==> ids[i] == ids[1..][i - 1];
    }
  }

  /** A failed claim gives back what it took if and only if all the ids before the bad one were
      claimed already: otherwise those runs stay claimed by nobody. */
  lemma {:induction false} FailedClaimLeaksIff(runs: Runs, ids: seq<RunId>, bad: nat, owner: Owner)
    requires bad < |ids| && !Visible(runs, ids[bad], owner)
    requires forall i :: 0 <= i < bad ==> Visible(runs, ids[i], owner)
    ensures var (claimed, ok) := ClaimRuns(runs, ids, owner);
            && !ok
            && (forall i :: 0 <= i < bad ==> ids[i] in claimed && claimed[ids[i]].claimed)
            && (claimed == runs <==> forall i :: 0 <= i < bad ==> ids[i] in runs && runs[ids[i]].claimed)
    decreases bad
  {
    if bad > 0 {
      var next := runs[ids[0] := runs[ids[0]].(claimed := true)];
      forall i | 0 <= i < bad - 1
        ensures Visible(next, ids[1..][i], owner)
      {
        assert ids[1..][i] == ids[i + 1];
      }
      FailedClaimLeaksIff(next, ids[1..], bad - 1, owner);
      ClaimRunsSpec(next, ids[1..], owner);
      var claimed := ClaimRuns(next, ids[1..], owner).0;
      forall i | 0 <= i < bad
        ensures ids[i] in claimed && claimed[ids[i]].claimed
      {
        assert i > 0 ==> ids[1..][i - 1] == ids[i];
      }
      if forall i :: 0 <= i < bad ==> ids[i] in runs && runs[ids[i]].claimed {
        assert next == runs;
        assert forall i :: 0 <= i < bad - 1 ==> ids[1..][i] == ids[i + 1];
      }
    }
  }

  /** Unclaiming clears the flag of the listed runs that are still running, and nothing else. */
  lemma {:induction false} UnclaimRunsSpec(runs: Runs, ids: seq<RunId>)
    ensures var unclaimed := UnclaimRuns(runs, ids);
            && unclaimed.Keys == runs.Keys
            && forall id <- runs ::
                 unclaimed[id] == if id in ids && runs[id].status == Running then runs[id].(claimed := false)
                     else runs[id]
    decreases |ids|
  {
    if ids != [] {
      var next := if ids[0] in runs && runs[ids[0]].status == Running
                  then runs[ids[0] := runs[ids[0]].(claimed := false)] else runs;
      UnclaimRunsSpec(next, ids[1..]);
    }
  }

  // ---------------------------------------------------------------------------------------------
  // A run ends once, and its end is never rewritten.

  /** Ids are handed out once, and every run has a watcher. */
  predicate IdsAreSound(w: World) {
    && (forall id <- w.runs :: id in w.watchers)
    && (forall id <- w.watchers :: id < w.counter && id !in w.starting)
    && (forall id <- w.starting :: id < w.counter)
  }

  /** How an entry may differ later on: not at all once it has ended, but for the claim flag. */
  predicate LaterEntry(e: Entry, e': Entry) {
    && e'.owner == e.owner && e'.startedAt == e.startedAt
    && (e.status != Running ==> e'.status == e.status && e'.finishedAt == e.finishedAt && e'.details == e.details)
  }

  lemma {:induction false} StepEndsOnce(w: World, e: Event)
    requires IdsAreSound(w)
    ensures var w' := Step(w, e);
            && IdsAreSound(w') && w.watchers.Keys <= w'.watchers.Keys
            && (forall id <- w'.runs :: id in w.watchers ==> id in w.runs && LaterEntry(w.runs[id], w'.runs[id]))
  {
    if Enabled(w, e) {
      match e
      case BeginWait(_, ids, owner) => ClaimRunsSpec(w.runs, ids, owner);
      case Advance(waitId) =>
        var phase := w.waits[waitId].phase;
        if phase.Checking? { UnclaimRunsSpec(w.runs, phase.stillRunning); }
      case _ =>
    }
  }

  /** Whatever completions, kills, waits and evictions do afterwards, a run that has ended keeps its
      status, its finish time and its outcome for as long as it is listed; and a run that is gone
      never comes back. */
  lemma {:induction false} EndIsNeverRewritten(w: World, events: seq<Event>, id: RunId)
    requires IdsAreSound(w) && id in w.watchers
    ensures var w' := Run(w, events);
            && IdsAreSound(w')
            && (id in w'.runs ==> id in w.runs && LaterEntry(w.runs[id], w'.runs[id]))
    decreases |events|
  {
    if events != [] {
      StepEndsOnce(w, events[0]);
      EndIsNeverRewritten(Step(w, events[0]), events[1..], id);
    }
  }

  lemma {:induction false} RunKeepsIdsSound(w: World, events: seq<Event>)
    requires IdsAreSound(w)
    ensures IdsAreSound(Run(w, events))
    decreases |events|
  {
    if events != [] {
      StepEndsOnce(w, events[0]);
      RunKeepsIdsSound(Step(w, events[0]), events[1..]);
    }
  }

  lemma {:induction false} RunConcat(w: World, first: seq<Event>, second: seq<Event>)
    ensures Run(w, first + second) == Run(Run(w, first), second)
    decreases |first|
  {
    if first == [] {
      assert first + second == second;
    } else {
      assert (first + second)[1..] == first[1..] + second;
      RunConcat(Step(w, first[0]), first[1..], second);
    }
  }

  /** From the start of the program on: what an execution has recorded about a run that was listed by
      then is what every continuation of it still lists, or the run is gone for good. */
  lemma {:induction false} EndStaysInEveryExecution(before: seq<Event>, after: seq<Event>, id: RunId)
    requires id in Run(EMPTY, before).watchers
    ensures var w, w' := Run(EMPTY, before), Run(EMPTY, before + after);
            && (id in w'.runs ==> id in w.runs && LaterEntry(w.runs[id], w'.runs[id]))
            && (forall other <- w'.runs :: other in w'.watchers && other < w'.counter)
  {
    RunKeepsIdsSound(EMPTY, before);
    RunConcat(EMPTY, before, after);
    EndIsNeverRewritten(Run(EMPTY, before), after, id);
  }

  // ---------------------------------------------------------------------------------------------
  // At least once: a run that ended is re-injected or returned by a wait.

  /** The wait is the reason for a claim on the run: its caller owns it, and it has not unclaimed yet,
      or it will return the run as ended, or it has failed and left the claim behind. */
  predicate Vouches(wait: Wait, id: RunId, entry: Entry) {
    && id in wait.ids && wait.owner == entry.owner
    && match wait.phase
       case Checking(_, _) => true
       case Reading(results) =>
         && entry.status != Running && |results| <= |wait.ids|
         && forall j :: 0 <= j < |results| && wait.ids[j] == id ==> results[j] != Running
       case Failed => true
  }

  predicate ClaimsAreVouchedFor(w: World) {
    forall id <- w.runs :: w.runs[id].claimed ==>
        exists waitId <- w.waits :: Vouches(w.waits[waitId], id, w.runs[id])
  }

  /** What a wait has not put on its list of running ids is not running. */
  predicate CheckIsSound(runs: Runs, wait: Wait) {
    match wait.phase
    case Checking(still, next) =>
      && next <= |wait.ids|
      && forall j :: 0 <= j < next && wait.ids[j] in runs && runs[wait.ids[j]].status == Running ==>
          wait.ids[j] in still
    case Reading(results) => |results| <= |wait.ids|
    case Failed => true
  }

  predicate ChecksAreSound(w: World) {
    forall waitId <- w.waits :: CheckIsSound(w.runs, w.waits[waitId])
  }

  predicate WatchersAreSound(w: World) {
    forall id <- w.runs :: id in w.watchers
      && (w.watchers[id] != Watching ==> w.runs[id].status != Running)
      && (w.watchers[id] == Suppressed ==> w.runs[id].claimed)
  }

  /** A wait that was not turned away waits for runs that have been started. */
  predicate WaitedIdsExist(w: World) {
    forall waitId <- w.waits :: !w.waits[waitId].phase.Failed? ==> AreListed(w.waits[waitId].ids, w.watchers)
  }

  /** These runs are listed, or were. */
  predicate AreListed(ids: seq<RunId>, watchers: map<RunId, Watcher>) {
    forall i :: 0 <= i < |ids| ==> ids[i] in watchers
  }

  predicate Inv(w: World) {
    IdsAreSound(w) && ClaimsAreVouchedFor(w) && ChecksAreSound(w) && WatchersAreSound(w) && WaitedIdsExist(w)
  }

  lemma {:induction false} VouchersCarryOver(w: World, w': World)
    requires ClaimsAreVouchedFor(w)
    requires forall id <- w'.runs :: w'.runs[id].claimed ==>
               && id in w.runs && w.runs[id].claimed && w'.runs[id].owner == w.runs[id].owner
               && (w.runs[id].status != Running ==> w'.runs[id].status != Running)
    requires forall waitId <- w.waits :: waitId in w'.waits && w'.waits[waitId] == w.waits[waitId]
    ensures ClaimsAreVouchedFor(w')
  {
    forall id <- w'.runs | w'.runs[id].claimed
      ensures exists waitId <- w'.waits :: Vouches(w'.waits[waitId], id, w'.runs[id])
    {
      var waitId :| waitId in w.waits && Vouches(w.waits[waitId], id, w.runs[id]);
      assert Vouches(w'.waits[waitId], id, w'.runs[id]);
    }
  }

  lemma {:induction false} LifecycleKeepsInv(w: World, e: Event)
    requires Inv(w) && Enabled(w, e) && !e.BeginWait? && !e.Advance?
    ensures Inv(Step(w, e))
  {
    StepEndsOnce(w, e);
    LifecycleShape(w, e);
    VouchersCarryOver(w, Step(w, e));
    ChecksCarryOver(w, Step(w, e));
    LifecycleKeepsWatchers(w, e);
  }

  /** Starts, completions, decisions and kills leave the waits and the claims alone. */
  lemma {:induction false} LifecycleShape(w: World, e: Event)
    requires IdsAreSound(w) && Enabled(w, e) && !e.BeginWait? && !e.Advance?
    ensures var w' := Step(w, e);
            && w'.waits == w.waits && w.watchers.Keys <= w'.watchers.Keys
            && (forall id <- w'.runs :: w'.runs[id].claimed ==>
                  && id in w.runs && w.runs[id].claimed && w'.runs[id].owner == w.runs[id].owner
                  && (w.runs[id].status != Running ==> w'.runs[id].status != Running))
            && (forall id <- w'.runs :: id in w.watchers && w'.runs[id].status == Running ==>
                  id in w.runs && w.runs[id].status == Running)
  {
  }

  lemma {:induction false} ChecksCarryOver(w: World, w': World)
    requires ChecksAreSound(w) && WaitedIdsExist(w) && w'.waits == w.waits && w.watchers.Keys <= w'.watchers.Keys
    requires forall id <- w'.runs :: id in w.watchers && w'.runs[id].status == Running ==>
               id in w.runs && w.runs[id].status == Running
    ensures ChecksAreSound(w') && WaitedIdsExist(w')
  {
    forall waitId <- w'.waits
      ensures CheckIsSound(w'.runs, w'.waits[waitId])
    {
      var wait := w.waits[waitId];
      assert CheckIsSound(w.runs, wait);
      assert !wait.phase.Failed? ==> AreListed(wait.ids, w.watchers);
    }
    forall waitId <- w'.waits | !w'.waits[waitId].phase.Failed?
      ensures AreListed(w'.waits[waitId].ids, w'.watchers)
    {
      assert AreListed(w.waits[waitId].ids, w.watchers);
    }
  }

  lemma {:induction false} LifecycleKeepsWatchers(w: World, e: Event)
    requires IdsAreSound(w) && WatchersAreSound(w) && Enabled(w, e) && !e.BeginWait? && !e.Advance?
    ensures WatchersAreSound(Step(w, e))
  {
  }

  lemma {:induction false} BeginWaitKeepsInv(w: World, waitId: WaitId, ids: seq<RunId>, owner: Owner)
    requires Inv(w) && waitId !in w.waits
    ensures Inv(Step(w, BeginWait(waitId, ids, owner)))
  {
    var w' := Step(w, BeginWait(waitId, ids, owner));
    StepEndsOnce(w, BeginWait(waitId, ids, owner));
    ClaimRunsSpec(w.runs, ids, owner);
    forall id <- w'.runs | w'.runs[id].claimed
      ensures exists other <- w'.waits :: Vouches(w'.waits[other], id, w'.runs[id])
    {
      if w.runs[id].claimed {
        var other :| other in w.waits && Vouches(w.waits[other], id, w.runs[id]);
        assert Vouches(w'.waits[other], id, w'.runs[id]);
      } else {
        assert Vouches(w'.waits[waitId], id, w'.runs[id]);
      }
    }
  }

  lemma {:induction false} UnclaimKeepsInv(w: World, waitId: WaitId)
    requires Inv(w) && waitId in w.waits
    requires var wait := w.waits[waitId]; wait.phase.Checking? && wait.phase.next == |wait.ids|
    ensures Inv(Step(w, Advance(waitId)))
  {
    var w' := Step(w, Advance(waitId));
    var wait := w.waits[waitId];
    StepEndsOnce(w, Advance(waitId));
    UnclaimRunsSpec(w.runs, wait.phase.stillRunning);
    forall id <- w'.runs | w'.runs[id].claimed
      ensures exists other <- w'.waits :: Vouches(w'.waits[other], id, w'.runs[id])
    {
      var other :| other in w.waits && Vouches(w.waits[other], id, w.runs[id]);
      if other == waitId {
        var j :| 0 <= j < |wait.ids| && wait.ids[j] == id;
        assert w.runs[wait.ids[j]].status != Running;
      }
      assert Vouches(w'.waits[other], id, w'.runs[id]);
    }
  }

  lemma {:induction false} LookKeepsInv(w: World, waitId: WaitId)
    requires Inv(w) && waitId in w.waits
    requires var wait := w.waits[waitId]; wait.phase.Checking? ==> wait.phase.next < |wait.ids|
    ensures Inv(Step(w, Advance(waitId)))
  {
    var w' := Step(w, Advance(waitId));
    var wait, wait' := w.waits[waitId], w'.waits[waitId];
    assert w'.runs == w.runs;
    forall id <- w'.runs | w'.runs[id].claimed
      ensures exists other <- w'.waits :: Vouches(w'.waits[other], id, w'.runs[id])
    {
      var other :| other in w.waits && Vouches(w.waits[other], id, w.runs[id]);
      assert Vouches(w'.waits[other], id, w'.runs[id]);
    }
    if wait.phase.Checking? && wait'.phase.Checking? {
      forall j | 0 <= j < wait'.phase.next && wait.ids[j] in w.runs && w.runs[wait.ids[j]].status == Running
        ensures wait.ids[j] in wait'.phase.stillRunning
      {
        assert j < wait.phase.next || j == wait.phase.next;
      }
    }
  }

  lemma {:induction false} StepKeepsInv(w: World, e: Event)
    requires Inv(w)
    ensures Inv(Step(w, e))
  {
    if Enabled(w, e) {
      match e
      case BeginWait(waitId, ids, owner) => BeginWaitKeepsInv(w, waitId, ids, owner);
      case Advance(waitId) =>
        var wait := w.waits[waitId];
        if wait.phase.Checking? && wait.phase.next == |wait.ids| {
          UnclaimKeepsInv(w, waitId);
        } else {
          LookKeepsInv(w, waitId);
        }
      case _ => LifecycleKeepsInv(w, e);
    }
  }

  lemma {:induction false} RunKeepsInv(w: World, events: seq<Event>)
    requires Inv(w)
    ensures Inv(Run(w, events))
    decreases |events|
  {
    if events != [] {
      StepKeepsInv(w, events[0]);
      RunKeepsInv(Step(w, events[0]), events[1..]);
    }
  }

  predicate WatcherIsDone(w: World, id: RunId) {
    id in w.watchers && (w.watchers[id] == Reinjected || w.watchers[id] == Suppressed)
  }

  /** The wait handed its caller a snapshot of `id` that is not running. */
  predicate ReturnedAsEnded(wait: Wait, id: RunId) {
    Returned(wait) && exists j :: 0 <= j < |wait.ids| && wait.ids[j] == id && wait.phase.results[j] != Running
  }

  /** The wait names the run and is its owner's; a wait of anybody else never claims it. */
  predicate IsOwnWait(w: World, waitId: WaitId, id: RunId) {
    && waitId in w.waits && id in w.runs
    && id in w.waits[waitId].ids && w.waits[waitId].owner == w.runs[id].owner
  }

  predicate IsToldToItsOwner(w: World, id: RunId) {
    exists waitId <- w.waits :: IsOwnWait(w, waitId, id) && ReturnedAsEnded(w.waits[waitId], id)
  }

  /** In every interleaving: once the watcher of a run that is still listed is done, and every wait of
      its owner that names the run has returned, its end was re-injected or some wait of its owner
      returned it as ended. */
  lemma {:induction false} FinishedRunIsReported(events: seq<Event>, id: RunId)
    requires var w := Run(EMPTY, events);
             && id in w.runs && WatcherIsDone(w, id)
             && forall waitId <- w.waits :: IsOwnWait(w, waitId, id) ==> Returned(w.waits[waitId])
    ensures var w := Run(EMPTY, events);
            w.runs[id].status != Running && (w.watchers[id] == Reinjected || IsToldToItsOwner(w, id))
  {
    var w := Run(EMPTY, events);
    RunKeepsInv(EMPTY, events);
    if w.watchers[id] == Suppressed {
      var waitId :| waitId in w.waits && Vouches(w.waits[waitId], id, w.runs[id]);
      var wait := w.waits[waitId];
      assert IsOwnWait(w, waitId, id);
      var j :| 0 <= j < |wait.ids| && wait.ids[j] == id;
      assert wait.phase.results[j] != Running;
      assert ReturnedAsEnded(wait, id);
    }
  }

  /** A run that outlives all the waits of its owner that name it is left unclaimed, so that its end
      will be re-injected. */
  lemma {:induction false} OutlivedRunIsUnclaimed(events: seq<Event>, id: RunId)
    requires var w := Run(EMPTY, events);
             && id in w.runs && w.runs[id].status == Running
             && forall waitId <- w.waits :: IsOwnWait(w, waitId, id) ==> Returned(w.waits[waitId])
    ensures var w := Run(EMPTY, events);
            !w.runs[id].claimed && ShouldReinject(MarkCompleted(w.runs, id, Exited(Some(0)), 0), id)
  {
    RunKeepsInv(EMPTY, events);
    var w := Run(EMPTY, events);
    if w.runs[id].claimed {
      var waitId :| waitId in w.waits && Vouches(w.waits[waitId], id, w.runs[id]);
      assert IsOwnWait(w, waitId, id);
    }
  }

  // ---------------------------------------------------------------------------------------------
  // The same with a hypothesis on what the callers ask for.

  predicate AllVisible(runs: Runs, ids: seq<RunId>, owner: Owner) {
    forall i :: 0 <= i < |ids| ==> Visible(runs, ids[i], owner)
  }

  /** A wait of this caller asks for runs of its own only, and eviction takes none that such a wait
      still waits for. Nothing is asked of other callers. */
  predicate IsGranted(w: World, e: Event, owner: Owner) {
    match e
    case BeginWait(_, ids, caller) => caller == owner ==> AllVisible(w.runs, ids, owner)
    case List(_, _, _, _, left) =>
      forall waitId <- w.waits :: w.waits[waitId].owner == owner && !Returned(w.waits[waitId]) ==>
        forall i :: 0 <= i < |w.waits[waitId].ids| ==> w.waits[waitId].ids[i] in left
    case _ => true
  }

  predicate AllGranted(w: World, events: seq<Event>, owner: Owner)
    decreases |events|
  {
    events != [] ==> IsGranted(w, events[0], owner) && AllGranted(Step(w, events[0]), events[1..], owner)
  }

  predicate IsGoingWell(runs: Runs, wait: Wait) {
    !wait.phase.Failed? && (!Returned(wait) ==> AllVisible(runs, wait.ids, wait.owner))
  }

  predicate NoWaitFails(w: World, owner: Owner) {
    forall waitId <- w.waits :: w.waits[waitId].owner == owner ==> IsGoingWell(w.runs, w.waits[waitId])
  }

  lemma {:induction false} OwnersStay(w: World, e: Event, id: RunId, owner: Owner)
    requires IdsAreSound(w) && Visible(w.runs, id, owner) && (e.List? && Enabled(w, e) ==> id in e.left)
    ensures Visible(Step(w, e).runs, id, owner)
  {
    if Enabled(w, e) {
      match e
      case BeginWait(_, ids, other) => ClaimRunsSpec(w.runs, ids, other);
      case Advance(waitId) =>
        if w.waits[waitId].phase.Checking? { UnclaimRunsSpec(w.runs, w.waits[waitId].phase.stillRunning); }
      case _ =>
    }
  }

  lemma {:induction false} AdvancedWaitGoesWell(runs: Runs, wait: Wait)
    requires IsGoingWell(runs, wait)
    ensures IsGoingWell(runs, AdvanceWait(runs, wait).1)
  {
  }

  lemma {:induction false} StepKeepsWaitsWell(w: World, e: Event, owner: Owner)
    requires IdsAreSound(w) && NoWaitFails(w, owner) && IsGranted(w, e, owner)
    ensures NoWaitFails(Step(w, e), owner)
  {
    var w' := Step(w, e);
    if e.BeginWait? && Enabled(w, e) {
      ClaimRunsSpec(w.runs, e.ids, e.owner);
    }
    forall waitId <- w'.waits | w'.waits[waitId].owner == owner
      ensures IsGoingWell(w'.runs, w'.waits[waitId])
    {
      if waitId in w.waits {
        OldWaitGoesWell(w, e, waitId, owner);
      }
    }
  }

  lemma {:induction false} OldWaitGoesWell(w: World, e: Event, waitId: WaitId, owner: Owner)
    requires IdsAreSound(w) && NoWaitFails(w, owner) && IsGranted(w, e, owner)
    requires waitId in w.waits && waitId in Step(w, e).waits && Step(w, e).waits[waitId].owner == owner
    ensures IsGoingWell(Step(w, e).runs, Step(w, e).waits[waitId])
  {
    var wait := w.waits[waitId];
    assert wait.owner == owner;
    assert IsGoingWell(w.runs, wait);
    if e == Advance(waitId) {
      AdvancedWaitGoesWell(w.runs, wait);
    }
    if !Returned(wait) {
      forall i | 0 <= i < |wait.ids|
        ensures Visible(Step(w, e).runs, wait.ids[i], wait.owner)
      {
        OwnersStay(w, e, wait.ids[i], wait.owner);
      }
    }
  }

  lemma {:induction false} RunKeepsWaitsWell(w: World, events: seq<Event>, owner: Owner)
    requires IdsAreSound(w) && NoWaitFails(w, owner) && AllGranted(w, events, owner)
    ensures NoWaitFails(Run(w, events), owner)
    decreases |events|
  {
    if events != [] {
      StepEndsOnce(w, events[0]);
      StepKeepsWaitsWell(w, events[0], owner);
      RunKeepsWaitsWell(Step(w, events[0]), events[1..], owner);
    }
  }

  predicate IsOver(wait: Wait) {
    wait.phase.Failed? || Returned(wait)
  }

  /** When a run's owner waits for runs of its own only, and none of them is evicted during a wait for
      it, whatever other callers do: once the watcher of the listed run is done and every wait of its
      owner that names it is over, its end was re-injected or some such wait returned it as ended. */
  lemma {:induction false} FinishedRunIsReportedToItsOwner(events: seq<Event>, id: RunId)
    requires var w := Run(EMPTY, events);
             && id in w.runs && WatcherIsDone(w, id)
             && AllGranted(EMPTY, events, w.runs[id].owner)
             && forall waitId <- w.waits :: IsOwnWait(w, waitId, id) ==> IsOver(w.waits[waitId])
    ensures var w := Run(EMPTY, events);
            w.runs[id].status != Running && (w.watchers[id] == Reinjected || IsToldToItsOwner(w, id))
  {
    var w := Run(EMPTY, events);
    RunKeepsWaitsWell(EMPTY, events, w.runs[id].owner);
    assert forall waitId <- w.waits :: IsOwnWait(w, waitId, id) ==> IsGoingWell(w.runs, w.waits[waitId]);
    FinishedRunIsReported(events, id);
  }

  // ---------------------------------------------------------------------------------------------
  // Without the hypothesis on waits: a wait on a known and an unknown id is turned away, keeps the
  // known one claimed, and the end of that run is then reported by nobody.

  function LeakingRun(owner: Owner): seq<Event> {
    [Number,
     List(1, owner, true, 0, map[1 := NewEntry(owner, true, 0)]),
     BeginWait(0, [1, 99], owner),
     Complete(1, Exited(Some(0)), 5),
     Decide(1)]
  }

  lemma {:induction false} PrependStep(w: World, e: Event, events: seq<Event>)
    ensures Run(w, [e] + events) == Run(Step(w, e), events)
  {
    assert ([e] + events)[1..] == events;
  }

  lemma {:induction false} FiveSteps(w: World, a: Event, b: Event, c: Event, d: Event, e: Event)
    ensures Run(w, [a, b, c, d, e]) == Step(Step(Step(Step(Step(w, a), b), c), d), e)
  {
    PrependStep(Step(Step(Step(Step(w, a), b), c), d), e, []);
    PrependStep(Step(Step(Step(w, a), b), c), d, [e]);
    PrependStep(Step(Step(w, a), b), c, [d, e]);
    PrependStep(Step(w, a), b, [c, d, e]);
    PrependStep(w, a, [b, c, d, e]);
    assert [a, b, c, d, e] == [a] + [b, c, d, e] && [b, c, d, e] == [b] + [c, d, e];
    assert [c, d, e] == [c] + [d, e] && [d, e] == [d] + [e] && [e] == [e] + [];
  }

  lemma {:induction false} OneRunIsListed(entry: Entry, owner: Owner)
    requires entry == NewEntry(owner, true, 0)
    ensures Step(Step(EMPTY, Number), List(1, owner, true, 0, map[1 := entry]))
         == World(map[1 := entry], 2, {}, map[1 := Watching], map[])
  {
    assert Step(EMPTY, Number) == World(map[], 2, {1}, map[], map[]);
    assert Terminal(map[1 := entry]) == {};
    var none: Runs := map[];
    assert none[1 := entry] == map[1 := entry];
  }

  lemma {:induction false} TurnedAwayWait(entry: Entry, owner: Owner)
    requires entry.owner == owner && !entry.claimed
    ensures Step(World(map[1 := entry], 2, {}, map[1 := Watching], map[]), BeginWait(0, [1, 99], owner))
         == World(map[1 := entry.(claimed := true)], 2, {}, map[1 := Watching], map[0 := Wait(owner, [1, 99], Failed)])
  {
    var runs: Runs := map[1 := entry];
    var claimed: Runs := map[1 := entry.(claimed := true)];
    assert [1, 99][1..] == [99];
    assert runs[1 := runs[1].(claimed := true)] == claimed;
    assert ClaimRuns(runs, [1, 99], owner) == ClaimRuns(claimed, [99], owner) == (claimed, false);
  }

  lemma {:induction false} ClaimedEndIsSuppressed(entry: Entry, waits: map<WaitId, Wait>)
    requires entry.claimed && entry.status == Running
    ensures var w :=
        Step(Step(World(map[1 := entry], 2, {}, map[1 := Watching], waits), Complete(1, Exited(Some(0)), 5)),
        Decide(1));
            && 1 in w.runs && w.runs[1].status == Completed && w.watchers == map[1 := Suppressed] && w.waits == waits
  {
  }

  lemma {:induction false} TurnedAwayWaitHidesTheEnd(owner: Owner)
    ensures var w := Run(EMPTY, LeakingRun(owner));
            && 1 in w.runs && w.runs[1].status == Completed && w.watchers == map[1 := Suppressed]
            && w.waits == map[0 := Wait(owner, [1, 99], Failed)]
  {
    var entry := NewEntry(owner, true, 0);
    OneRunIsListed(entry, owner);
    TurnedAwayWait(entry, owner);
    ClaimedEndIsSuppressed(entry.(claimed := true), map[0 := Wait(owner, [1, 99], Failed)]);
    FiveSteps(EMPTY, Number, List(1, owner, true, 0, map[1 := entry]), BeginWait(0, [1, 99], owner),
              Complete(1, Exited(Some(0)), 5), Decide(1));
  }
}
