/** The list of tool calls both stream readers build, with its index from call id to position. */
module ToolCalls {
  import opened Options

  datatype ToolCall = ToolCall(id: Option<string>, name: string, argsJson: string)

  datatype CallList = CallList(calls: seq<ToolCall>, indices: map<string, nat>)

  const NO_CALLS := CallList([], map[])

  /** The index points at the call with the id, and every call with an id is indexed. */
  predicate IsIndexed(list: CallList) {
    && (forall id <- list.indices :: list.indices[id] < |list.calls| && list.calls[list.indices[id]].id == Some(id))
    && (forall i :: 0 <= i < |list.calls| && list.calls[i].id.Some? ==>
          list.calls[i].id.value in list.indices && list.indices[list.calls[i].id.value] == i)
  }

  /** `record_tool_call` */
  function Record(list: CallList, call: ToolCall): (recorded: CallList)
    requires IsIndexed(list)
    ensures IsIndexed(recorded)
  {
    if call.id.Some? then
      if call.id.value in list.indices then
        list.(calls := list.calls[list.indices[call.id.value] := call])
      else
        CallList(list.calls + [call], list.indices[call.id.value := |list.calls|])
    else
      list.(calls := list.calls + [call])
  }

  function RecordAll(list: CallList, calls: seq<ToolCall>): (recorded: CallList)
    requires IsIndexed(list)
    ensures IsIndexed(recorded)
    decreases |calls|
  {
    if calls == [] then list else RecordAll(Record(list, calls[0]), calls[1..])
  }

  // ---------------------------------------------------------------------------------------------
  // The specification, without an index: each id once, where it was first seen, with its last value.

  predicate SameCall(a: ToolCall, b: ToolCall) {
    a.id.Some? && a.id == b.id
  }

  function LastVersion(call: ToolCall, later: seq<ToolCall>): ToolCall
    decreases |later|
  {
    if later == [] then call
    else LastVersion(if SameCall(call, later[0]) then later[0] else call, later[1..])
  }

  function Others(call: ToolCall, later: seq<ToolCall>): (others: seq<ToolCall>)
    ensures |others| <= |later|
  {
    if later == [] then []
    else if SameCall(call, later[0]) then Others(call, later[1..])
    else [later[0]] + Others(call, later[1..])
  }

  function Distinct(calls: seq<ToolCall>): seq<ToolCall>
    decreases |calls|
  {
    if calls == [] then []
    else [LastVersion(calls[0], calls[1..])] + Distinct(Others(calls[0], calls[1..]))
  }

  predicate Mentions(calls: seq<ToolCall>, call: ToolCall) {
    exists i :: 0 <= i < |calls| && SameCall(calls[i], call)
  }

  lemma {:induction false} LastVersionSnoc(call: ToolCall, later: seq<ToolCall>, last: ToolCall)
    ensures LastVersion(call, later + [last])
         == if SameCall(call, last) then last else LastVersion(call, later)
    ensures LastVersion(call, later).id == call.id
    decreases |later|
  {
    if later == [] {
      assert ([] + [last])[1..] == [];
    } else {
      assert (later + [last])[1..] == later[1..] + [last];
      LastVersionSnoc(if SameCall(call, later[0]) then later[0] else call, later[1..], last);
    }
  }

  lemma {:induction false} OthersSnoc(call: ToolCall, later: seq<ToolCall>, last: ToolCall)
    ensures Others(call, later + [last]) == if SameCall(call, last) then Others(call, later)
        else Others(call, later) + [last]
    ensures !SameCall(call, last) ==> (Mentions(Others(call, later), last) <==> Mentions(later, last))
    decreases |later|
  {
    if later == [] {
      assert ([] + [last])[1..] == [];
    } else {
      assert (later + [last])[1..] == later[1..] + [last];
      OthersSnoc(call, later[1..], last);
      MentionsCons(later[0], later[1..], last);
      MentionsCons(later[0], Others(call, later[1..]), last);
      assert later == [later[0]] + later[1..];
    }
  }

  lemma MentionsCons(first: ToolCall, rest: seq<ToolCall>, call: ToolCall)
    ensures Mentions([first] + rest, call) <==> SameCall(first, call) || Mentions(rest, call)
  {
    if Mentions(rest, call) {
      var i :| 0 <= i < |rest| && SameCall(rest[i], call);
      assert SameCall(([first] + rest)[i + 1], call);
    }
    if SameCall(first, call) {
      assert SameCall(([first] + rest)[0], call);
    }
  }

  /** One more call replaces the entry with its id, if there is one, and is appended otherwise. */
  predicate AddedTo(before: seq<ToolCall>, after: seq<ToolCall>, call: ToolCall, known: bool) {
    if known then
      exists i :: 0 <= i < |before| && SameCall(before[i], call) && after == before[i := call]
    else
      after == before + [call]
  }

  lemma {:induction false} DistinctSnoc(calls: seq<ToolCall>, last: ToolCall)
    ensures AddedTo(Distinct(calls), Distinct(calls + [last]), last, Mentions(calls, last))
    decreases |calls|
  {
    if calls == [] {
      assert [last][1..] == [];
    } else {
      var first, rest := calls[0], calls[1..];
      assert (calls + [last])[1..] == rest + [last];
      LastVersionSnoc(first, rest, last);
      OthersSnoc(first, rest, last);
      MentionsCons(first, rest, last);
      assert calls == [first] + rest;
      var before, after := Distinct(calls), Distinct(calls + [last]);
      if SameCall(first, last) {
        assert SameCall(before[0], last) && after == before[0 := last];
      } else {
        DistinctSnoc(Others(first, rest), last);
        var inner, inner' := Distinct(Others(first, rest)), Distinct(Others(first, rest) + [last]);
        if Mentions(rest, last) {
          var i :| 0 <= i < |inner| && SameCall(inner[i], last) && inner' == inner[i := last];
          assert SameCall(before[i + 1], last) && after == before[i + 1 := last];
        }
      }
    }
  }

  lemma {:induction false} RecordAllSnoc(list: CallList, calls: seq<ToolCall>, last: ToolCall)
    requires IsIndexed(list)
    ensures RecordAll(list, calls + [last]) == Record(RecordAll(list, calls), last)
    decreases |calls|
  {
    if calls == [] {
      assert ([] + [last])[1..] == [];
    } else {
      assert (calls + [last])[1..] == calls[1..] + [last];
      RecordAllSnoc(Record(list, calls[0]), calls[1..], last);
    }
  }

  lemma {:induction false} RecordAllConcat(list: CallList, first: seq<ToolCall>, second: seq<ToolCall>)
    requires IsIndexed(list)
    ensures RecordAll(list, first + second) == RecordAll(RecordAll(list, first), second)
    decreases |first|
  {
    if first == [] {
      assert first + second == second;
    } else {
      assert (first + second)[1..] == first[1..] + second;
      RecordAllConcat(Record(list, first[0]), first[1..], second);
    }
  }

  /** Indexed recording gives the specified list: ids distinct, first-seen order, last value of each,
      and every call without an id kept. */
  lemma {:induction false} RecordingKeepsDistinctCalls(calls: seq<ToolCall>)
    ensures RecordAll(NO_CALLS, calls).calls == Distinct(calls)
    ensures forall call: ToolCall :: call.id.Some? ==>
              (Mentions(calls, call) <==> call.id.value in RecordAll(NO_CALLS, calls).indices)
    decreases |calls|
  {
    if calls != [] {
      var n := |calls| - 1;
      var list := RecordAll(NO_CALLS, calls[..n]);
      assert calls == calls[..n] + [calls[n]];
      RecordingKeepsDistinctCalls(calls[..n]);
      RecordAllSnoc(NO_CALLS, calls[..n], calls[n]);
      DistinctSnoc(calls[..n], calls[n]);
      forall call: ToolCall | call.id.Some?
        ensures Mentions(calls, call) <==> SameCall(calls[n], call) || Mentions(calls[..n], call)
      {
        MentionsSnoc(calls[..n], calls[n], call);
      }
    }
  }

  lemma MentionsSnoc(calls: seq<ToolCall>, last: ToolCall, call: ToolCall)
    ensures Mentions(calls + [last], call) <==> SameCall(last, call) || Mentions(calls, call)
  {
    if Mentions(calls, call) {
      var i :| 0 <= i < |calls| && SameCall(calls[i], call);
      assert SameCall((calls + [last])[i], call);
    }
    if SameCall(last, call) {
      assert SameCall((calls + [last])[|calls|], call);
    }
  }

  lemma DistinctIdsAreDistinct(calls: seq<ToolCall>)
    ensures var list := Distinct(calls);
            forall i, j :: 0 <= i < j < |list| && list[i].id.Some? ==> list[i].id != list[j].id
  {
    RecordingKeepsDistinctCalls(calls);
  }
}
