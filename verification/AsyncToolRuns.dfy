/** Background tool runs. Every function on `Runs` is what one caller does while it holds the
    manager's lock; watchers, waiters, killers and starters interleave freely between them. */
module AsyncToolRuns {
  import opened Options

  /** The sequence number that ends a run id; the manager's counter makes it unique. */
  type RunId = nat
  type WaitId = nat

  datatype Owner = Owner(agentId: string, sessionKey: string)

  datatype Status = Running | Completed | Killed

  datatype Details =
    | ProcessRun(exitCode: Option<int>)
    | DelegatedRun(reply: Option<string>, error: Option<string>)

  datatype Entry = Entry(
    owner: Owner,
    status: Status,
    startedAt: int,
    finishedAt: Option<int>,
    claimed: bool,
    details: Details)

  type Runs = map<RunId, Entry>

  datatype Outcome = Exited(code: Option<int>) | Replied(reply: string) | Errored(error: string)

  const MAX_COMPLETED: nat := 64

  function NewEntry(owner: Owner, isProcess: bool, now: int): Entry {
    Entry(owner, Running, now, None, false, if isProcess then ProcessRun(None) else DelegatedRun(None, None))
  }

  function FinishTime(e: Entry): int {
    match e.finishedAt
    case Some(t) => t
    case None => e.startedAt
  }

  function Terminal(runs: Runs): set<RunId> {
    set id | id in runs && runs[id].status != Running
  }

  /** What eviction may leave of `before`. The order in which a hash map lists equally old runs is
      not determined, so neither is the result. */
  predicate EvictedTo(before: Runs, after: Runs) {
    && (forall id <- after :: id in before && after[id] == before[id])
    && (forall id <- before :: before[id].status == Running ==> id in after)
    && |Terminal(after)| == (if |Terminal(before)| <= MAX_COMPLETED then |Terminal(before)| else MAX_COMPLETED)
    && (forall gone, kept :: gone in Terminal(before) && gone !in after && kept in Terminal(after) ==>
          FinishTime(before[gone]) <= FinishTime(before[kept]))
  }

  function RecordOutcome(details: Details, outcome: Outcome): Details {
    match (details, outcome)
    case (ProcessRun(_), Exited(code)) => ProcessRun(code)
    case (DelegatedRun(_, _), Replied(reply)) => DelegatedRun(Some(reply), None)
    case (DelegatedRun(_, _), Errored(error)) => DelegatedRun(None, Some(error))
    case _ => details
  }

  /** `mark_process_completed` and `mark_delegated_completed` */
  function MarkCompleted(runs: Runs, id: RunId, outcome: Outcome, now: int): Runs {
    if id in runs && runs[id].status == Running then
      runs[id := runs[id].(status := Completed, finishedAt := Some(now), details :=
          RecordOutcome(runs[id].details, outcome))]
    else runs
  }

  /** `kill_for_session`; the lock is held while the kill command runs. The flag says whether that
      command could be executed. The result says whether a snapshot or an error is returned. */
  function Kill(runs: Runs, id: RunId, owner: Owner, now: int, executed: bool): (Runs, bool) {
    if id !in runs || runs[id].owner != owner then (runs, false)
    else if runs[id].status != Running then (runs, true)
    else if runs[id].details.DelegatedRun? || !executed then (runs, false)
    else (runs[id := runs[id].(status := Killed, finishedAt := Some(now), details := ProcessRun(Some(-1)))], true)
  }

  predicate Visible(runs: Runs, id: RunId, owner: Owner) {
    id in runs && runs[id].owner == owner
  }

  /** `claim_runs`: claims one after the other and stops at the first id that is not the caller's,
      leaving the earlier ones claimed. */
  function ClaimRuns(runs: Runs, ids: seq<RunId>, owner: Owner): (Runs, bool)
    decreases |ids|
  {
    if ids == [] then (runs, true)
    else if !Visible(runs, ids[0], owner) then (runs, false)
    else ClaimRuns(runs[ids[0] := runs[ids[0]].(claimed := true)], ids[1..], owner)
  }

  /** `unclaim_runs` */
  function UnclaimRuns(runs: Runs, ids: seq<RunId>): Runs
    decreases |ids|
  {
    if ids == [] then runs
    else if ids[0] in runs && runs[ids[0]].status == Running then
      UnclaimRuns(runs[ids[0] := runs[ids[0]].(claimed := false)], ids[1..])
    else UnclaimRuns(runs, ids[1..])
  }

  predicate ShouldReinject(runs: Runs, id: RunId) {
    id in runs && !runs[id].claimed
  }

  // ---------------------------------------------------------------------------------------------
  // Waits: the sections of `wait_for_session`, each under its own lock.

  datatype Phase =
    | Checking(stillRunning: seq<RunId>, next: nat)   // after the sleep, one look per id, then the unclaim
    | Reading(results: seq<Status>)                   // one snapshot per id; all there when returned
    | Failed

  datatype Wait = Wait(owner: Owner, ids: seq<RunId>, phase: Phase)

  predicate Returned(wait: Wait) {
    wait.phase.Reading? && |wait.phase.results| == |wait.ids|
  }

  function StartWait(runs: Runs, ids: seq<RunId>, owner: Owner): (Runs, Wait) {
    var (claimed, ok) := ClaimRuns(runs, ids, owner);
    (claimed, Wait(owner, ids, if ok then Checking([], 0) else Failed))
  }

  function AdvanceWait(runs: Runs, wait: Wait): (Runs, Wait) {
    match wait.phase
    case Failed => (runs, wait)
    case Checking(still, k) =>
      if k < |wait.ids| then
        var id := wait.ids[k];
        if !Visible(runs, id, wait.owner) then (runs, wait.(phase := Failed))
        else (runs, wait.(phase := Checking(if runs[id].status == Running then still + [id] else still, k + 1)))
      else (UnclaimRuns(runs, still), wait.(phase := Reading([])))
    case Reading(results) =>
      if |results| < |wait.ids| then
        var id := wait.ids[|results|];
        if !Visible(runs, id, wait.owner) then (runs, wait.(phase := Failed))
        else (runs, wait.(phase := Reading(results + [runs[id].status])))
      else (runs, wait)
  }

  // ---------------------------------------------------------------------------------------------
  // Whole executions.

  /** The completion watcher of one run. */
  datatype Watcher = Watching | Marked | Reinjected | Suppressed

  /** `starting` are the ids that were taken from the counter and are not listed yet. */
  datatype World = World(
    runs: Runs,
    counter: nat,
    starting: set<RunId>,
    watchers: map<RunId, Watcher>,
    waits: map<WaitId, Wait>)

  datatype Event =
    | Number                                                       // a start takes its id
    | List(id: RunId, owner: Owner, isProcess: bool, now: int, left: Runs)   // `left`: what eviction leaves
    | Complete(id: RunId, outcome: Outcome, now: int)              // the watcher records the end
    | Decide(id: RunId)                                            // the watcher decides on re-injection
    | KillRun(id: RunId, owner: Owner, now: int, executed: bool)
    | BeginWait(waitId: WaitId, ids: seq<RunId>, owner: Owner)
    | Advance(waitId: WaitId)

  const EMPTY: World := World(map[], 1, {}, map[], map[])

  predicate Enabled(w: World, e: Event) {
    match e
    case Number => true
    case List(id, owner, isProcess, now, left) =>
      id in w.starting && EvictedTo(w.runs[id := NewEntry(owner, isProcess, now)], left)
    case Complete(id, _, _) => id in w.watchers && w.watchers[id] == Watching
    case Decide(id) => id in w.watchers && w.watchers[id] == Marked
    case KillRun(_, _, _, _) => true
    case BeginWait(waitId, _, _) => waitId !in w.waits
    case Advance(waitId) => waitId in w.waits
  }

  function Step(w: World, e: Event): World {
    if !Enabled(w, e) then w
    else
      match e
      case Number => w.(counter := w.counter + 1, starting := w.starting + {w.counter})
      case List(id, _, _, _, left) =>
        w.(runs := left, starting := w.starting - {id}, watchers := w.watchers[id := Watching])
      case Complete(id, outcome, now) =>
        w.(runs := MarkCompleted(w.runs, id, outcome, now), watchers := w.watchers[id := Marked])
      case Decide(id) =>
        w.(watchers := w.watchers[id := if ShouldReinject(w.runs, id) then Reinjected else Suppressed])
      case KillRun(id, owner, now, executed) =>
        w.(runs := Kill(w.runs, id, owner, now, executed).0)
      case BeginWait(waitId, ids, owner) =>
        var (runs, wait) := StartWait(w.runs, ids, owner);
        w.(runs := runs, waits := w.waits[waitId := wait])
      case Advance(waitId) =>
        var (runs, wait) := AdvanceWait(w.runs, w.waits[waitId]);
        w.(runs := runs, waits := w.waits[waitId := wait])
  }

  function Run(w: World, events: seq<Event>): World
    decreases |events|
  {
    if events == [] then w else Run(Step(w, events[0]), events[1..])
  }
}
