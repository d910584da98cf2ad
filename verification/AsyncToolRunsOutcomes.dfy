/** What a listed run says about itself is what happened to it: how it was started, how it ended, and
    what a killer is told. */
module AsyncToolRunsOutcomes {
  import opened Options
  import opened AsyncToolRuns
  import opened AsyncToolRunsTheorems

  /** The run is of the kind of tool it was started with, for its owner, at its time. */
  predicate StartsRun(e: Event, id: RunId, entry: Entry) {
    && e.List? && e.id == id && e.owner == entry.owner && e.now == entry.startedAt
    && (e.isProcess <==> entry.details.ProcessRun?)
  }

  /** A process keeps its exit code; a delegated run its reply or its error, and not the other. An outcome
      of the other kind says nothing. */
  predicate Records(details: Details, outcome: Outcome) {
    match outcome
    case Exited(code) =>
      if details.ProcessRun? then details.exitCode == code else details.reply == None && details.error == None
    case Replied(reply) =>
      if details.ProcessRun? then details.exitCode == None else details.reply == Some(reply) && details.error == None
    case Errored(error) =>
      if details.ProcessRun? then details.exitCode == None else details.reply == None && details.error == Some(error)
  }

  predicate CompletesRun(e: Event, id: RunId, entry: Entry) {
    && e.Complete? && e.id == id && entry.finishedAt == Some(e.now)
    && Records(entry.details, e.outcome)
  }

  predicate KillsRun(e: Event, id: RunId, entry: Entry) {
    && e.KillRun? && e.id == id && e.owner == entry.owner && e.executed && entry.finishedAt == Some(e.now)
    && entry.details.ProcessRun? && entry.details.exitCode == Some(-1)
  }

  /** Nothing is known about the end of the run. */
  predicate IsOpenEnded(entry: Entry) {
    && entry.finishedAt == None
    && if entry.details.ProcessRun? then entry.details.exitCode == None
       else entry.details.reply == None && entry.details.error == None
  }

  predicate WasStarted(events: seq<Event>, id: RunId, entry: Entry) {
    exists i :: 0 <= i < |events| && StartsRun(events[i], id, entry)
  }

  predicate WasCompleted(events: seq<Event>, id: RunId, entry: Entry) {
    exists i :: 0 <= i < |events| && CompletesRun(events[i], id, entry)
  }

  predicate WasKilled(events: seq<Event>, id: RunId, entry: Entry) {
    exists i :: 0 <= i < |events| && KillsRun(events[i], id, entry)
  }

  /** The events are a reason for the run's status, its times and its outcome. */
  predicate IsExplained(events: seq<Event>, id: RunId, entry: Entry) {
    && WasStarted(events, id, entry)
    && match entry.status
       case Running => IsOpenEnded(entry)
       case Completed => WasCompleted(events, id, entry)
       case Killed => WasKilled(events, id, entry)
  }

  predicate AllExplained(events: seq<Event>, runs: Runs) {
    forall id <- runs :: IsExplained(events, id, runs[id])
  }

  /** But for the claim flag, which no outcome depends on. */
  lemma {:induction false} StaysExplained(events: seq<Event>, e: Event, id: RunId, entry: Entry, later: Entry)
    requires IsExplained(events, id, entry) && later == entry.(claimed := later.claimed)
    ensures IsExplained(events + [e], id, later)
  {
    var all := events + [e];
    var i :| 0 <= i < |events| && StartsRun(events[i], id, entry);
    assert StartsRun(all[i], id, later);
    if entry.status == Completed {
      var j :| 0 <= j < |events| && CompletesRun(events[j], id, entry);
      assert CompletesRun(all[j], id, later);
    } else if entry.status == Killed {
      var j :| 0 <= j < |events| && KillsRun(events[j], id, entry);
      assert KillsRun(all[j], id, later);
    }
  }

  /** How one event changes one listed run. */
  predicate Becomes(e: Event, id: RunId, entry: Entry, later: Entry) {
    || later == entry.(claimed := later.claimed)
    || (&& entry.status == Running && later.owner == entry.owner && later.startedAt == entry.startedAt
        && (later.details.ProcessRun? <==> entry.details.ProcessRun?)
        && (   (later.status == Completed && CompletesRun(e, id, later))
            || (later.status == Killed && KillsRun(e, id, later))))
  }

  lemma {:induction false} StepChangesRuns(w: World, e: Event, id: RunId)
    requires id in Step(w, e).runs
    requires id in w.runs && (w.runs[id].status == Running ==> IsOpenEnded(w.runs[id]))
    requires e.List? && Enabled(w, e) ==> e.id != id
    ensures Becomes(e, id, w.runs[id], Step(w, e).runs[id])
  {
    if Enabled(w, e) {
      match e
      case BeginWait(_, ids, owner) => ClaimRunsSpec(w.runs, ids, owner);
      case Advance(waitId) =>
        if w.waits[waitId].phase.Checking? { UnclaimRunsSpec(w.runs, w.waits[waitId].phase.stillRunning); }
      case _ =>
    }
  }

  /** A new entry of the table is that of the run being listed. */
  lemma {:induction false} NewRunIsListed(w: World, e: Event, id: RunId)
    requires id in Step(w, e).runs && (id !in w.runs || (e.List? && Enabled(w, e) && e.id == id))
    ensures StartsRun(e, id, Step(w, e).runs[id]) && Step(w, e).runs[id].status == Running
    ensures IsOpenEnded(Step(w, e).runs[id])
  {
    if Enabled(w, e) {
      match e
      case BeginWait(_, ids, owner) => ClaimRunsSpec(w.runs, ids, owner);
      case Advance(waitId) =>
        if w.waits[waitId].phase.Checking? { UnclaimRunsSpec(w.runs, w.waits[waitId].phase.stillRunning); }
      case _ =>
    }
  }

  lemma {:induction false} ChangedIsExplained(events: seq<Event>, e: Event, id: RunId, entry: Entry, later: Entry)
    requires IsExplained(events, id, entry) && Becomes(e, id, entry, later)
    ensures IsExplained(events + [e], id, later)
  {
    if later == entry.(claimed := later.claimed) {
      StaysExplained(events, e, id, entry, later);
    } else {
      var all := events + [e];
      var i :| 0 <= i < |events| && StartsRun(events[i], id, entry);
      assert StartsRun(all[i], id, later);
      assert all[|events|] == e;
    }
  }

  lemma {:induction false} StepExplains(events: seq<Event>, w: World, e: Event)
    requires AllExplained(events, w.runs)
    ensures AllExplained(events + [e], Step(w, e).runs)
  {
    var w' := Step(w, e);
    forall id <- w'.runs
      ensures IsExplained(events + [e], id, w'.runs[id])
    {
      if id in w.runs && !(e.List? && Enabled(w, e) && e.id == id) {
        StepChangesRuns(w, e, id);
        ChangedIsExplained(events, e, id, w.runs[id], w'.runs[id]);
      } else {
        NewRunIsListed(w, e, id);
        assert (events + [e])[|events|] == e;
      }
    }
  }

  lemma {:induction false} RunExplains(before: seq<Event>, w: World, events: seq<Event>)
    requires AllExplained(before, w.runs)
    ensures AllExplained(before + events, Run(w, events).runs)
    decreases |events|
  {
    if events == [] {
      assert before + events == before;
    } else {
      StepExplains(before, w, events[0]);
      RunExplains(before + [events[0]], Step(w, events[0]), events[1..]);
      assert before + [events[0]] + events[1..] == before + events;
    }
  }

  /** In every execution each listed run was started as it says. If it is completed, an event reported the
      end at its finish time, with its exit code, or its reply and no error, or its error and no reply. If
      it is killed, its owner's kill command was executed at its finish time, and it is a process with exit
      code -1. While it is running it says nothing of an end. */
  lemma {:induction false} ListedRunsAreExplained(events: seq<Event>, id: RunId)
    requires id in Run(EMPTY, events).runs
    ensures IsExplained(events, id, Run(EMPTY, events).runs[id])
  {
    RunExplains([], EMPTY, events);
    assert [] + events == events;
  }

  // ---------------------------------------------------------------------------------------------
  // What ends a run.

  /** Only these two kinds of event end a run, and each does if the run is still running: the report of its
      watcher, and the executed kill command of its owner if the run is a process. */
  predicate EndsRun(w: World, e: Event, id: RunId) {
    && id in w.runs && w.runs[id].status == Running
    && (   (e.Complete? && e.id == id && Enabled(w, e))
        || (e.KillRun? && e.id == id && e.owner == w.runs[id].owner && e.executed && w.runs[id].details.ProcessRun?))
  }

  lemma {:induction false} RunEndsIff(w: World, e: Event, id: RunId)
    requires IdsAreSound(w) && id in w.runs && w.runs[id].status == Running && id in Step(w, e).runs
    ensures Step(w, e).runs[id].status != Running <==> EndsRun(w, e, id)
    ensures EndsRun(w, e, id) ==> Step(w, e).runs[id].status == if e.Complete? then Completed else Killed
  {
    if Enabled(w, e) {
      match e
      case BeginWait(_, ids, owner) => ClaimRunsSpec(w.runs, ids, owner);
      case Advance(waitId) =>
        if w.waits[waitId].phase.Checking? { UnclaimRunsSpec(w.runs, w.waits[waitId].phase.stillRunning); }
      case _ =>
    }
  }

  /** A kill command touches at most its own run, and none but a running process of its caller. */
  lemma {:induction false} KillTouchesOwnProcessOnly(w: World, id: RunId, owner: Owner, now: int, executed: bool)
    ensures var w' := Step(w, KillRun(id, owner, now, executed));
            && w' == w.(runs := w'.runs) && w'.runs.Keys == w.runs.Keys
            && (forall other <- w.runs :: w'.runs[other] != w.runs[other] ==>
                  && other == id && w.runs[id].owner == owner && w.runs[id].status == Running
                  && w.runs[id].details.ProcessRun? && executed)
  {
  }

  // ---------------------------------------------------------------------------------------------
  // Eviction, from the start of the program on.

  /** Both runs have ended, the first one no later. */
  predicate EndedNoLater(gone: Entry, kept: Entry) {
    && gone.status != Running && gone.finishedAt.Some?
    && (kept.status != Running ==> kept.finishedAt.Some? && gone.finishedAt.value <= kept.finishedAt.value)
  }

  lemma {:induction false} EvictedEndedNoLater(runs: Runs, listed: RunId, entry: Entry, left: Runs, gone: RunId,
      kept: RunId)
    requires EvictedTo(runs[listed := entry], left) && entry.status == Running
    requires gone in runs && gone !in left && kept in left
    requires forall id <- runs :: runs[id].status != Running ==> runs[id].finishedAt.Some?
    ensures EndedNoLater(runs[gone], left[kept])
  {
    var before := runs[listed := entry];
    assert gone in before && before[gone] == runs[gone];
    assert gone in Terminal(before);
    if left[kept].status != Running {
      assert kept in Terminal(left) && kept in runs && left[kept] == runs[kept];
    }
  }

  /** Listing a run leaves at most 64 ended ones. A running run is never evicted, and an ended one only
      when it finished no later than every ended run that stays. */
  lemma {:induction false} ListingEvictsTheOldest(events: seq<Event>, e: Event)
    requires e.List? && Enabled(Run(EMPTY, events), e)
    ensures var w := Run(EMPTY, events);
            var w' := Step(w, e);
            && e.id in w'.runs && |Terminal(w'.runs)| <= 64
            && (forall gone <- w.runs, kept <- w'.runs :: gone !in w'.runs ==>
                  EndedNoLater(w.runs[gone], w'.runs[kept]))
            && (|Terminal(w.runs)| <= 64 ==> w.runs.Keys <= w'.runs.Keys)
  {
    var w := Run(EMPTY, events);
    var entry := NewEntry(e.owner, e.isProcess, e.now);
    EndedRunsHaveATime(events);
    forall gone <- w.runs, kept <- e.left | gone !in e.left
      ensures EndedNoLater(w.runs[gone], e.left[kept])
    {
      EvictedEndedNoLater(w.runs, e.id, entry, e.left, gone, kept);
    }
    NewRunIsNoEnd(events, e);
    if |Terminal(w.runs)| <= 64 {
      EvictingNone(w.runs[e.id := entry], e.left);
    }
  }

  lemma {:induction false} EndedRunsHaveATime(events: seq<Event>)
    ensures forall id <- Run(EMPTY, events).runs ::
              Run(EMPTY, events).runs[id].status != Running ==> Run(EMPTY, events).runs[id].finishedAt.Some?
  {
    forall id <- Run(EMPTY, events).runs | Run(EMPTY, events).runs[id].status != Running
      ensures Run(EMPTY, events).runs[id].finishedAt.Some?
    {
      ListedRunsAreExplained(events, id);
    }
  }

  lemma {:induction false} NewRunIsNoEnd(events: seq<Event>, e: Event)
    requires e.List? && Enabled(Run(EMPTY, events), e)
    ensures var runs := Run(EMPTY, events).runs;
            Terminal(runs[e.id := NewEntry(e.owner, e.isProcess, e.now)]) == Terminal(runs)
  {
    RunKeepsIdsSound(EMPTY, events);
    var runs := Run(EMPTY, events).runs;
    assert e.id !in runs;
    var listed: Runs := runs[e.id := NewEntry(e.owner, e.isProcess, e.now)];
    assert listed[e.id].status == Running;
  }

  lemma {:induction false} EvictingNone(before: Runs, after: Runs)
    requires EvictedTo(before, after) && |Terminal(before)| <= 64
    ensures after.Keys == before.Keys
  {
    assert Terminal(after) <= Terminal(before);
    SubsetOfSameSize(Terminal(after), Terminal(before));
    forall id <- before
      ensures id in after
    {
      assert id in Terminal(before) ==> id in Terminal(after);
    }
  }

  lemma {:induction false} SubsetOfSameSize(a: set<RunId>, b: set<RunId>)
    requires a <= b && |a| == |b|
    ensures a == b
  {
    assert b == a + (b - a);
  }

  // ---------------------------------------------------------------------------------------------
  // What a wait returns.

  /** At the moment after `i` events the run is the caller's and has this status. */
  predicate HadStatus(events: seq<Event>, i: nat, id: RunId, owner: Owner, status: Status) {
    i <= |events| &&
      var runs := Run(EMPTY, events[..i]).runs;
      id in runs && runs[id].owner == owner && runs[id].status == status
  }

  predicate HadStatusOnce(events: seq<Event>, id: RunId, owner: Owner, status: Status) {
    exists i :: 0 <= i <= |events| && HadStatus(events, i, id, owner, status)
  }

  predicate TellsTheTruth(events: seq<Event>, wait: Wait) {
    wait.phase.Reading? ==>
      |wait.phase.results| <= |wait.ids| && forall j :: 0 <= j < |wait.phase.results| ==>
        HadStatusOnce(events, wait.ids[j], wait.owner, wait.phase.results[j])
  }

  lemma {:induction false} RunOfSnoc(w: World, events: seq<Event>, e: Event)
    ensures Run(w, events + [e]) == Step(Run(w, events), e)
  {
    RunConcat(w, events, [e]);
    assert [e][1..] == [];
    assert Run(Step(Run(w, events), e), []) == Step(Run(w, events), e);
  }

  lemma {:induction false} TruthStays(events: seq<Event>, e: Event, wait: Wait)
    requires TellsTheTruth(events, wait)
    ensures TellsTheTruth(events + [e], wait)
  {
    if wait.phase.Reading? {
      forall j | 0 <= j < |wait.phase.results|
        ensures HadStatusOnce(events + [e], wait.ids[j], wait.owner, wait.phase.results[j])
      {
        var i :| 0 <= i <= |events| && HadStatus(events, i, wait.ids[j], wait.owner, wait.phase.results[j]);
        assert (events + [e])[..i] == events[..i];
        assert HadStatus(events + [e], i, wait.ids[j], wait.owner, wait.phase.results[j]);
      }
    }
  }

  lemma {:induction false} AdvancedWaitTellsTheTruth(events: seq<Event>, wait: Wait)
    requires TellsTheTruth(events, wait)
    ensures TellsTheTruth(events, AdvanceWait(Run(EMPTY, events).runs, wait).1)
  {
    var later := AdvanceWait(Run(EMPTY, events).runs, wait).1;
    if wait.phase.Reading? && later.phase.Reading? && later != wait {
      var n := |wait.phase.results|;
      assert events[..|events|] == events;
      assert HadStatus(events, |events|, wait.ids[n], wait.owner, later.phase.results[n]);
      forall j | 0 <= j < |later.phase.results|
        ensures HadStatusOnce(events, later.ids[j], later.owner, later.phase.results[j])
      {
        if j < n {
          assert later.phase.results[j] == wait.phase.results[j];
        }
      }
    }
  }

  lemma {:induction false} WaitsTellTheTruth(events: seq<Event>)
    ensures forall waitId <- Run(EMPTY, events).waits :: TellsTheTruth(events, Run(EMPTY, events).waits[waitId])
    decreases |events|
  {
    if events != [] {
      var before, e := events[..|events| - 1], events[|events| - 1];
      var w := Run(EMPTY, before);
      assert events == before + [e];
      WaitsTellTheTruth(before);
      RunOfSnoc(EMPTY, before, e);
      forall waitId <- Step(w, e).waits
        ensures TellsTheTruth(events, Step(w, e).waits[waitId])
      {
        if e == Advance(waitId) && waitId in w.waits {
          AdvancedWaitTellsTheTruth(before, w.waits[waitId]);
        }
        if waitId in w.waits {
          TruthStays(before, e, Step(w, e).waits[waitId]);
        }
      }
    }
  }

  /** Each status that a wait returns is one that the run had, as a run of the caller, at some moment of
      the execution. */
  lemma {:induction false} WaitReturnsTrueStatuses(events: seq<Event>, waitId: WaitId, j: nat)
    requires var w := Run(EMPTY, events);
             waitId in w.waits && Returned(w.waits[waitId]) && j < |w.waits[waitId].ids|
    ensures var wait := Run(EMPTY, events).waits[waitId];
            HadStatusOnce(events, wait.ids[j], wait.owner, wait.phase.results[j])
  {
    WaitsTellTheTruth(events);
    assert TellsTheTruth(events, Run(EMPTY, events).waits[waitId]);
  }

  // ---------------------------------------------------------------------------------------------
  // Every wait ends.

  predicate IsAnswered(wait: Wait) {
    wait.phase.Failed? || Returned(wait)
  }

  /** One look for each id, one section for the claims, and one more look for each id. */
  function SectionsLeft(wait: Wait): int {
    match wait.phase
    case Checking(_, next) => 2 * |wait.ids| + 1 - next
    case Reading(results) => |wait.ids| - |results|
    case Failed => 0
  }

  function OwnSections(events: seq<Event>, waitId: WaitId): nat {
    if events == [] then 0 else (if events[0] == Advance(waitId) then 1 else 0) + OwnSections(events[1..], waitId)
  }

  predicate IsWithinBounds(wait: Wait) {
    match wait.phase
    case Checking(_, next) => next <= |wait.ids|
    case Reading(results) => |results| <= |wait.ids|
    case Failed => true
  }

  lemma {:induction false} SectionIsUsed(runs: Runs, wait: Wait)
    requires IsWithinBounds(wait)
    ensures var later := AdvanceWait(runs, wait).1;
            && IsWithinBounds(later) && later.ids == wait.ids && later.owner == wait.owner
            && if IsAnswered(wait) then later == wait
               else IsAnswered(later) || SectionsLeft(later) == SectionsLeft(wait) - 1
  {
  }

  lemma {:induction false} StepOfWait(w: World, e: Event, waitId: WaitId)
    requires waitId in w.waits
    ensures waitId in Step(w, e).waits
    ensures Step(w, e).waits[waitId] == if e == Advance(waitId) then AdvanceWait(w.runs, w.waits[waitId]).1
                else w.waits[waitId]
  {
  }

  lemma {:induction false} WaitEnds(w: World, events: seq<Event>, waitId: WaitId)
    requires waitId in w.waits && IsWithinBounds(w.waits[waitId])
    requires IsAnswered(w.waits[waitId]) || SectionsLeft(w.waits[waitId]) <= OwnSections(events, waitId)
    ensures waitId in Run(w, events).waits && IsAnswered(Run(w, events).waits[waitId])
    decreases |events|
  {
    if events != [] {
      StepOfWait(w, events[0], waitId);
      SectionIsUsed(w.runs, w.waits[waitId]);
      WaitEnds(Step(w, events[0]), events[1..], waitId);
    }
  }

  lemma {:induction false} RunsKeepWaitsWithinBounds(w: World, events: seq<Event>)
    requires forall waitId <- w.waits :: IsWithinBounds(w.waits[waitId])
    ensures forall waitId <- Run(w, events).waits :: IsWithinBounds(Run(w, events).waits[waitId])
    decreases |events|
  {
    if events != [] {
      var w' := Step(w, events[0]);
      forall waitId <- w'.waits
        ensures IsWithinBounds(w'.waits[waitId])
      {
        if waitId in w.waits {
          StepOfWait(w, events[0], waitId);
          SectionIsUsed(w.runs, w.waits[waitId]);
        }
      }
      RunsKeepWaitsWithinBounds(w', events[1..]);
    }
  }

  /** Whatever all the others do in between: after two sections for each id and one more, a wait has either
      returned or been turned away. */
  lemma {:induction false} EveryWaitEnds(before: seq<Event>, after: seq<Event>, waitId: WaitId)
    requires waitId in Run(EMPTY, before).waits
    requires OwnSections(after, waitId) >= 2 * |Run(EMPTY, before).waits[waitId].ids| + 1
    ensures waitId in Run(EMPTY, before + after).waits && IsAnswered(Run(EMPTY, before + after).waits[waitId])
  {
    RunsKeepWaitsWithinBounds(EMPTY, before);
    WaitEnds(Run(EMPTY, before), after, waitId);
    RunConcat(EMPTY, before, after);
  }
}
