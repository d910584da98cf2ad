/** The registry as the code has it: one object, updated in place. */
module ApprovalsState {
  import opened Options
  import opened Approvals

  class ApprovalRegistry {
    var nextId: nat
    var pending: map<string, string>
    var sent: map<string, Decision>

    function Model(): Registry
      reads this
    {
      Registry(nextId, pending, sent)
    }

    constructor ()
      ensures Model() == NewRegistry()
    {
      nextId := 1;
      pending := map[];
      sent := map[];
    }

    /** The two atomic parts of `register`. */
    method NumberRequest() returns (n: nat)
      modifies this
      ensures n == old(nextId) && Model() == TakeId(old(Model()))
    {
      n := nextId;
      nextId := nextId + 1;
    }

    method InsertRequest(n: nat, user: string) returns (id: string)
      modifies this
      ensures id == ApprovalId(n) && Model() == Insert(old(Model()), id, user)
    {
      id := ApprovalId(n);
      pending := pending[id := user];
    }

    /** `wait_for_decision` up to the lock: one poll of the channel and the clock. */
    method PollDecision(id: string, isTimeOver: bool) returns (decision: Option<Decision>)
      ensures decision == Poll(Model(), id, isTimeOver)
    {
      if id in sent {
        decision := Some(sent[id]);
      } else if id !in pending {
        decision := Some(Denied);
      } else if isTimeOver {
        decision := Some(TimedOut);
      } else {
        decision := None;
      }
    }

    method RemoveRequest(id: string)
      modifies this
      ensures Model() == Remove(old(Model()), id)
    {
      pending := pending - {id};
    }

    method ResolveRequest(id: string, user: string, decision: Decision) returns (isResolved: bool)
      modifies this
      ensures (Model(), isResolved) == Resolve(old(Model()), id, user, decision)
    {
      if id !in pending {
        return false;
      }
      if pending[id] != user {
        return false;
      }
      pending := pending - {id};
      sent := sent[id := decision];
      return true;
    }
  }
}
