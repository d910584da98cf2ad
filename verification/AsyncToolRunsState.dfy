/** The run manager as the code has it: one table updated in place, each method being one locked
    section, proved against the function of the same name in `AsyncToolRuns`. */
module AsyncToolRunsState {
  import opened Options
  import Spec = AsyncToolRuns

  type RunId = Spec.RunId
  type Entry = Spec.Entry

  predicate IsAscending(items: seq<(RunId, int)>) {
    forall i, j :: 0 <= i < j < |items| ==> items[i].1 <= items[j].1
  }

  method InsertByTime(sorted: seq<(RunId, int)>, item: (RunId, int)) returns (longer: seq<(RunId, int)>)
    requires IsAscending(sorted)
    ensures IsAscending(longer) && multiset(longer) == multiset(sorted) + multiset{item}
  {
    var at := 0;
    while at < |sorted| && sorted[at].1 <= item.1
      invariant 0 <= at <= |sorted|
      invariant forall i :: 0 <= i < at ==> sorted[i].1 <= item.1
    {
      at := at + 1;
    }
    longer := sorted[..at] + [item] + sorted[at..];
    InsertedIsAscending(sorted, at, item);
  }

  lemma InsertedIsAscending(sorted: seq<(RunId, int)>, at: nat, item: (RunId, int))
    requires IsAscending(sorted) && at <= |sorted|
    requires at < |sorted| ==> item.1 <= sorted[at].1
    requires forall i :: 0 <= i < at ==> sorted[i].1 <= item.1
    ensures var longer := sorted[..at] + [item] + sorted[at..];
            IsAscending(longer) && multiset(longer) == multiset(sorted) + multiset{item}
  {
    assert sorted == sorted[..at] + sorted[at..];
  }

  /** `sort_by_key` on the recorded times: some permutation of the pairs in ascending order. */
  method SortByTime(items: seq<(RunId, int)>) returns (sorted: seq<(RunId, int)>)
    ensures multiset(sorted) == multiset(items)
    ensures IsAscending(sorted)
  {
    sorted := [];
    for k := 0 to |items|
      invariant multiset(sorted) == multiset(items[..k])
      invariant IsAscending(sorted)
    {
      assert items[..k + 1] == items[..k] + [items[k]];
      sorted := InsertByTime(sorted, items[k]);
    }
    assert items[..|items|] == items;
  }

  ghost predicate ListsKeys(order: seq<RunId>, runs: Spec.Runs) {
    && (forall i, j :: 0 <= i < j < |order| ==> order[i] != order[j])
    && (forall id :: id in order <==> id in runs)
  }

  function Elements(s: seq<RunId>): set<RunId> {
    set id | id in s
  }

  lemma {:induction false} DistinctSeqAsSet(s: seq<RunId>)
    requires forall i, j :: 0 <= i < j < |s| ==> s[i] != s[j]
    ensures |Elements(s)| == |s|
  {
    if s != [] {
      var n := |s| - 1;
      DistinctSeqAsSet(s[..n]);
      assert s == s[..n] + [s[n]] && s[n] !in s[..n];
      assert Elements(s) == Elements(s[..n]) + {s[n]};
    }
  }

  class AsyncToolRunManager {
    var runs: Spec.Runs
    var counter: nat

    constructor ()
      ensures runs == map[] && counter == 1
    {
      runs, counter := map[], 1;
    }

    /** `auto_evict`. `order` is the order in which the hash map happens to list its keys. */
    method AutoEvict(order: seq<RunId>)
      requires ListsKeys(order, runs)
      modifies this`runs
      ensures Spec.EvictedTo(old(runs), runs)
    {
      var completed := ListCompleted(order);
      CountIsTerminal(runs, completed);
      if |completed| <= Spec.MAX_COMPLETED {
        return;
      }
      var sorted := SortByTime(completed);
      SortedListsTerminal(runs, completed, sorted);
      var toEvict := |completed| - Spec.MAX_COMPLETED;
      for k := 0 to toEvict
        invariant runs == old(runs) - (set i | 0 <= i < k :: sorted[i].0)
      {
        runs := runs - {sorted[k].0};
      }
      OldestAreEvicted(old(runs), runs, sorted, toEvict);
    }

    /** The ended runs with their times, as `auto_evict` collects them. */
    method ListCompleted(order: seq<RunId>) returns (completed: seq<(RunId, int)>)
      requires ListsKeys(order, runs)
      ensures ListsTerminal(runs, completed)
    {
      completed := [];
      for k := 0 to |order|
        invariant forall i :: 0 <= i < |completed| ==>
          && completed[i].0 in order[..k] && runs[completed[i].0].status != Spec.Running
          && completed[i].1 == Spec.FinishTime(runs[completed[i].0])
        invariant forall i, j :: 0 <= i < j < |completed| ==> completed[i].0 != completed[j].0
        invariant forall i :: 0 <= i < k && runs[order[i]].status != Spec.Running ==>
          (order[i], Spec.FinishTime(runs[order[i]])) in completed
      {
        assert order[..k + 1] == order[..k] + [order[k]];
        if runs[order[k]].status != Spec.Running {
          completed := completed + [(order[k], Spec.FinishTime(runs[order[k]]))];
        }
      }
    }

    /** `counter.fetch_add(1)`, at the beginning of the three `start_*` functions. */
    method TakeNumber() returns (id: RunId)
      modifies this`counter
      ensures id == old(counter) && counter == old(counter) + 1
    {
      id := counter;
      counter := counter + 1;
    }

    /** Their locked end. */
    method Register(id: RunId, owner: Spec.Owner, isProcess: bool, now: int, order: seq<RunId>)
      requires ListsKeys(order, runs[id := Spec.NewEntry(owner, isProcess, now)])
      modifies this`runs
      ensures Spec.EvictedTo(old(runs[id := Spec.NewEntry(owner, isProcess, now)]), runs)
    {
      runs := runs[id := Spec.NewEntry(owner, isProcess, now)];
      AutoEvict(order);
    }

    method MarkCompleted(id: RunId, outcome: Spec.Outcome, now: int)
      modifies this`runs
      ensures runs == Spec.MarkCompleted(old(runs), id, outcome, now)
    {
      if id in runs && runs[id].status == Spec.Running {
        var entry := runs[id].(status := Spec.Completed, finishedAt := Some(now));
        entry := entry.(details := Spec.RecordOutcome(entry.details, outcome));
        runs := runs[id := entry];
      }
    }

    method KillForSession(id: RunId, owner: Spec.Owner, now: int, executed: bool) returns (ok: bool)
      modifies this`runs
      ensures (runs, ok) == Spec.Kill(old(runs), id, owner, now, executed)
      ensures ok <==>
                && id in old(runs) && old(runs)[id].owner == owner
                && (old(runs)[id].status != Spec.Running || (old(runs)[id].details.ProcessRun? && executed))
    {
      if id !in runs {
        return false;
      }
      var entry := runs[id];
      if entry.owner != owner {
        return false;
      }
      if entry.status != Spec.Running {
        return true;
      }
      if entry.details.DelegatedRun? || !executed {
        return false;
      }
      entry := entry.(status := Spec.Killed, finishedAt := Some(now), details := Spec.ProcessRun(Some(-1)));
      runs := runs[id := entry];
      return true;
    }

    method ClaimRuns(ids: seq<RunId>, owner: Spec.Owner) returns (ok: bool)
      modifies this`runs
      ensures (runs, ok) == Spec.ClaimRuns(old(runs), ids, owner)
    {
      for k := 0 to |ids|
        invariant Spec.ClaimRuns(runs, ids[k..], owner) == Spec.ClaimRuns(old(runs), ids, owner)
      {
        assert ids[k..][1..] == ids[k + 1..];
        if !Spec.Visible(runs, ids[k], owner) {
          return false;
        }
        runs := runs[ids[k] := runs[ids[k]].(claimed := true)];
      }
      return true;
    }

    method UnclaimRuns(ids: seq<RunId>)
      modifies this`runs
      ensures runs == Spec.UnclaimRuns(old(runs), ids)
    {
      for k := 0 to |ids|
        invariant Spec.UnclaimRuns(runs, ids[k..]) == Spec.UnclaimRuns(old(runs), ids)
      {
        assert ids[k..][1..] == ids[k + 1..];
        if ids[k] in runs && runs[ids[k]].status == Spec.Running {
          runs := runs[ids[k] := runs[ids[k]].(claimed := false)];
        }
      }
    }

    method ShouldReinject(id: RunId) returns (reinject: bool)
      ensures reinject == Spec.ShouldReinject(runs, id)
    {
      reinject := id in runs && !runs[id].claimed;
    }
  }

  /** One call of `wait_for_session`, advanced by one locked section at a time. */
  class WaitTask {
    var wait: Spec.Wait

    constructor (manager: AsyncToolRunManager, ids: seq<RunId>, owner: Spec.Owner)
      modifies manager`runs
      ensures (manager.runs, wait) == Spec.StartWait(old(manager.runs), ids, owner)
    {
      var ok := manager.ClaimRuns(ids, owner);
      wait := Spec.Wait(owner, ids, if ok then Spec.Checking([], 0) else Spec.Failed);
    }

    method Advance(manager: AsyncToolRunManager)
      modifies this, manager`runs
      ensures (manager.runs, wait) == Spec.AdvanceWait(old(manager.runs), old(wait))
    {
      match wait.phase {
        case Failed =>
        case Checking(still, k) =>
          if k < |wait.ids| {
            var id := wait.ids[k];
            if !Spec.Visible(manager.runs, id, wait.owner) {
              wait := wait.(phase := Spec.Failed);
            } else if manager.runs[id].status == Spec.Running {
              wait := wait.(phase := Spec.Checking(still + [id], k + 1));
            } else {
              wait := wait.(phase := Spec.Checking(still, k + 1));
            }
          } else {
            manager.UnclaimRuns(still);
            wait := wait.(phase := Spec.Reading([]));
          }
        case Reading(results) =>
          if |results| < |wait.ids| {
            var id := wait.ids[|results|];
            if !Spec.Visible(manager.runs, id, wait.owner) {
              wait := wait.(phase := Spec.Failed);
            } else {
              wait := wait.(phase := Spec.Reading(results + [manager.runs[id].status]));
            }
          }
      }
    }
  }

  // ---------------------------------------------------------------------------------------------
  // Counting for the eviction loop.

  predicate ListsTerminal(runs: Spec.Runs, items: seq<(RunId, int)>) {
    && (forall i :: 0 <= i < |items| ==>
          items[i].0 in runs && runs[items[i].0].status != Spec.Running
              && items[i].1 == Spec.FinishTime(runs[items[i].0]))
    && (forall i, j :: 0 <= i < j < |items| ==> items[i].0 != items[j].0)
    && (forall id <- runs :: runs[id].status != Spec.Running ==> (id, Spec.FinishTime(runs[id])) in items)
  }

  lemma CountIsTerminal(runs: Spec.Runs, items: seq<(RunId, int)>)
    requires ListsTerminal(runs, items)
    ensures |Spec.Terminal(runs)| == |items|
  {
    var ids := seq(|items|, i requires 0 <= i < |items| => items[i].0);
    DistinctSeqAsSet(ids);
    forall id <- Spec.Terminal(runs)
      ensures id in ids
    {
      var i :| 0 <= i < |items| && items[i] == (id, Spec.FinishTime(runs[id]));
      assert ids[i] == id;
    }
    assert Spec.Terminal(runs) == Elements(ids);
  }

  lemma SortedListsTerminal(runs: Spec.Runs, items: seq<(RunId, int)>, sorted: seq<(RunId, int)>)
    requires ListsTerminal(runs, items) && multiset(sorted) == multiset(items)
    ensures ListsTerminal(runs, sorted) && |sorted| == |items|
  {
    assert |multiset(sorted)| == |multiset(items)|;
    forall x: (RunId, int)
      ensures x in sorted <==> x in items
    {
      assert x in multiset(sorted) <==> x in multiset(items);
    }
    forall i | 0 <= i < |sorted|
      ensures sorted[i].0 in runs && runs[sorted[i].0].status != Spec.Running
          && sorted[i].1 == Spec.FinishTime(runs[sorted[i].0])
    {
      assert sorted[i] in items;
    }
    forall i, j | 0 <= i < j < |sorted|
      ensures sorted[i].0 != sorted[j].0
    {
      if sorted[i].0 == sorted[j].0 {
        assert sorted[i] == sorted[j];
        OccursTwice(sorted, i, j);
        OccursOnce(items, sorted[i]);
      }
    }
  }

  lemma {:induction false} OccursTwice(items: seq<(RunId, int)>, i: nat, j: nat)
    requires i < j < |items| && items[i] == items[j]
    ensures multiset(items)[items[i]] >= 2
  {
    assert items == items[..i] + [items[i]] + items[i + 1..j] + [items[j]] + items[j + 1..];
  }

  lemma {:induction false} OccursOnce(items: seq<(RunId, int)>, x: (RunId, int))
    requires forall i, j :: 0 <= i < j < |items| ==> items[i].0 != items[j].0
    ensures multiset(items)[x] <= 1
  {
    if items != [] {
      var n := |items| - 1;
      assert items == items[..n] + [items[n]];
      OccursOnce(items[..n], x);
      assert items[n] !in items[..n];
    }
  }

  lemma OldestAreEvicted(before: Spec.Runs, after: Spec.Runs, sorted: seq<(RunId, int)>, n: nat)
    requires ListsTerminal(before, sorted) && n <= |sorted| && |sorted| - n == Spec.MAX_COMPLETED
    requires forall i, j :: 0 <= i < j < |sorted| ==> sorted[i].1 <= sorted[j].1
    requires after == before - (set i | 0 <= i < n :: sorted[i].0)
    ensures Spec.EvictedTo(before, after)
  {
    var kept := sorted[n..];
    CountIsTerminal(before, sorted);
    forall id <- after | after[id].status != Spec.Running
      ensures (id, Spec.FinishTime(after[id])) in kept
    {
      var i :| 0 <= i < |sorted| && sorted[i] == (id, Spec.FinishTime(before[id]));
      assert i >= n;
      assert kept[i - n] == sorted[i];
    }
    CountIsTerminal(after, kept);
    forall gone, k | gone in Spec.Terminal(before) && gone !in after && k in Spec.Terminal(after)
      ensures Spec.FinishTime(before[gone]) <= Spec.FinishTime(before[k])
    {
      var i :| 0 <= i < |sorted| && sorted[i] == (gone, Spec.FinishTime(before[gone]));
      assert i < n;
      var j :| 0 <= j < |sorted| && sorted[j] == (k, Spec.FinishTime(before[k]));
      assert n <= j;
    }
  }
}
