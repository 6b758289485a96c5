/** `Bridge::handle` as the object that keeps the ledger (native/ros-jtc/bridge.cpp:101-122, 276-423). */
module BridgeObject {
  import opened Options
  import opened BridgeLedger

  class Bridge {
    const capacity: nat
    var sequence: nat
    var goals: map<string, Entry>
    var operations: map<string, string>
    var recordedBytes: nat
    var faulted: bool
    ghost var sends: seq<Sent>
    ghost var cancels: seq<string>

    ghost function View(): Ledger
      reads this
    {
      Ledger(sequence, goals, operations, recordedBytes, faulted, sends, cancels)
    }

    ghost predicate Valid()
      reads this
    {
      Inv(View(), capacity)
    }

    constructor (capacity: nat)
      requires capacity > 0
      ensures this.capacity == capacity && View() == EMPTY && Valid()
    {
      this.capacity := capacity;
      sequence, goals, operations, recordedBytes, faulted := 0, map[], map[], 0, false;
      sends, cancels := [], [];
    }

    /** No recorded goal is still pending. */
    method AllResolved() returns (clear: bool)
      ensures clear <==> forall i | i in goals :: !goals[i].pending
    {
      var todo := goals.Keys;
      while todo != {}
        invariant todo <= goals.Keys
        invariant forall i | i in goals && i !in todo :: !goals[i].pending
      {
        var i :| i in todo;
        if goals[i].pending {
          return false;
        }
        todo := todo - {i};
      }
      return true;
    }

    /** Entered in the ledger first, then called, then settled. */
    method HandleSend(operation: string, invocation: string, body: string, w: SendWeather) returns (reply: Reply)
      modifies this
      ensures View() == SendStep(old(View()), capacity, operation, invocation, body, w)
      ensures reply == SendReplyTo(old(View()), capacity, operation, invocation, body, w)
      ensures w.goalValid && invocation in old(goals) ==>
                reply == if old(goals)[invocation].operation == operation && old(goals)[invocation].body == body
                         then SendReply(old(goals)[invocation].send) else Refused
      ensures reply.SendReply? ==> invocation in goals && goals[invocation].send == reply.send
      ensures reply.SendReply? && invocation !in old(goals) ==>
                && goals[invocation].pending == (w.answer != Some(false))
                && reply.send == (if w.answer.None? || !w.replied then SendUnknown
                                  else if w.answer.value then Accepted else Rejected)
      ensures reply.SendReply? && reply.send.Accepted? && invocation !in old(goals) ==> goals[invocation].pending
    {
      if !w.goalValid {
        return Refused;
      }
      if invocation in goals {
        var known := goals[invocation];
        return if known.operation == operation && known.body == body then SendReply(known.send) else Refused;
      }
      if faulted || |goals| >= capacity || recordedBytes + |body| > MAX_BYTES || operation in operations {
        return Refused;
      }
      var clear := AllResolved();
      if !clear || !w.inspected {
        return Refused;
      }
      var entry := Entry(operation, body, SendEntered, None, true, None);
      goals := goals[invocation := entry];
      operations := operations[operation := invocation];
      recordedBytes := recordedBytes + |body|;
      sends := sends + [Sent(invocation, operation, w.answer)];
      assert View() == Enter(old(View()), operation, invocation, body, w.answer);
      reply := CallSend(invocation, w);
    }

    /** The native call and what its answer makes of the entry. */
    method CallSend(invocation: string, w: SendWeather) returns (reply: Reply)
      requires invocation in goals && goals[invocation].pending
      modifies `goals, `faulted
      ensures View() == Settle(old(View()), invocation, w)
      ensures reply.SendReply? && invocation in goals && goals[invocation].send == reply.send
      ensures goals[invocation].pending == (w.answer != Some(false))
      ensures reply.send == (if w.answer.None? || !w.replied then SendUnknown
                             else if w.answer.value then Accepted else Rejected)
    {
      if w.answer.Some? {
        var entry := goals[invocation];
        var send := if w.answer.value then Accepted else Rejected;
        goals := goals[invocation := entry.(pending := w.answer.value, send := send)];
        if w.replied {
          return SendReply(goals[invocation].send);
        }
      }
      faulted := true;
      goals := goals[invocation := goals[invocation].(send := SendUnknown)];
      return SendReply(SendUnknown);
    }

    method HandleResult(invocation: string, answer: Option<GoalResult>) returns (reply: Reply)
      modifies `goals
      ensures View() == ResultStep(old(View()), invocation, answer)
      ensures reply == ResultReplyTo(old(View()), invocation, answer)
      ensures invocation in old(goals) && old(goals)[invocation].result.Some? ==>
                reply == ResultReply(old(goals)[invocation].result.value, true)
      ensures reply.ResultReply? && reply.captured && invocation in goals ==>
                goals[invocation].result == Some(reply.result)
    {
      if invocation in goals && goals[invocation].result.Some? {
        return ResultReply(goals[invocation].result.value, true);
      }
      if answer.None? {
        return RpcUnknown;
      }
      if !(0 <= answer.value.status <= 6) {
        return Refused;
      }
      var terminal := Terminal(answer.value);
      if invocation in goals && terminal {
        goals := goals[invocation := goals[invocation].(result := answer, pending := false)];
      }
      return ResultReply(answer.value, terminal);
    }

    /** At most one native cancel per goal; a second request replays what was recorded. */
    method HandleCancel(invocation: string, w: CancelWeather) returns (reply: Reply)
      modifies `goals, `faulted, `cancels
      ensures View() == CancelStep(old(View()), invocation, w)
      ensures reply == CancelReplyTo(old(View()), invocation, w)
      ensures reply.Refused? <==> invocation !in goals
      ensures reply.CancelReply? ==> goals[invocation].cancel == Some(reply.cancel)
      ensures reply.Refused? || reply.CancelReply?
    {
      if invocation !in goals {
        return Refused;
      }
      var saved := goals[invocation];
      if saved.cancel.Some? {
        return CancelReply(saved.cancel.value);
      }
      goals := goals[invocation := saved.(cancel := Some(CancelEntered))];
      cancels := cancels + [invocation];
      if w.answer.Some? && w.onlyThisGoal && w.replied {
        goals := goals[invocation := saved.(cancel := Some(CancelResponse(w.answer.value)))];
      } else {
        faulted := true;
        goals := goals[invocation := saved.(cancel := Some(CancelUnknown))];
      }
      return CancelReply(goals[invocation].cancel.value);
    }

    method Handle(c: Command) returns (reply: Reply)
      requires Valid()
      modifies this
      ensures Valid()
      ensures View() == Step(old(View()), capacity, c)
      ensures reply == ReplyTo(old(View()), capacity, c)
      ensures c.envelope.sequence <= old(sequence) || !Current(c.envelope) ==> reply.Refused?
    {
      hide SendStep, ResultStep, CancelStep, SendReplyTo, ResultReplyTo, CancelReplyTo, Inv;
      StepKeeps(View(), capacity, c);
      if c.envelope.sequence <= sequence {
        return Refused;
      }
      sequence := c.envelope.sequence;
      if !Current(c.envelope) {
        return Refused;
      }
      match c
      case Send(_, operation, invocation, body, w) => reply := HandleSend(operation, invocation, body, w);
      case Result(_, invocation, answer) => reply := HandleResult(invocation, answer);
      case Cancel(_, invocation, w) => reply := HandleCancel(invocation, w);
      case Inspect(_) => reply := Observed;
    }
  }
}
