/** The goal ledger of the JTC bridge (native/ros-jtc/bridge.cpp:296-421), on values. */
module BridgeLedger {
  import opened Options

  datatype SendState = SendEntered | Accepted | Rejected | SendUnknown

  datatype CancelState = CancelEntered | CancelResponse(returnCode: int) | CancelUnknown

  datatype GoalResult = GoalResult(status: int, errorCode: int)

  datatype Entry = Entry(
    operation: string,
    body: string,
    send: SendState,
    result: Option<GoalResult>,
    pending: bool,
    cancel: Option<CancelState>)

  /** A goal handed to the native send, and what the native side answered, if anything. */
  datatype Sent = Sent(invocation: string, operation: string, answer: Option<bool>)

  /** The bridge's variables, and the native calls entered so far. */
  datatype Ledger = Ledger(
    sequence: nat,
    goals: map<string, Entry>,
    operations: map<string, string>,
    recordedBytes: nat,
    faulted: bool,
    sends: seq<Sent>,
    cancels: seq<string>)

  const EMPTY := Ledger(0, map[], map[], 0, false, [], [])

  const MAX_BYTES := 16 * 1024 * 1024
  const WINDOW_NS := 1_000_000_000

  /** The envelope of a command: its sequence number, its expiry and the clock on arrival. */
  datatype Envelope = Envelope(sequence: nat, expiresAtNs: nat, nowNs: nat)

  predicate Current(e: Envelope) {
    e.nowNs < e.expiresAtNs && e.expiresAtNs - e.nowNs <= WINDOW_NS
  }

  // What the ROS side does, and whether the reply can be written.

  datatype SendWeather = SendWeather(goalValid: bool, inspected: bool, answer: Option<bool>, replied: bool)

  datatype CancelWeather = CancelWeather(answer: Option<int>, onlyThisGoal: bool, replied: bool)

  datatype Command =
    | Send(envelope: Envelope, operation: string, invocation: string, body: string, sendWeather: SendWeather)
    | Result(envelope: Envelope, invocation: string, answer: Option<GoalResult>)
    | Cancel(envelope: Envelope, invocation: string, cancelWeather: CancelWeather)
    | Inspect(envelope: Envelope)

  datatype Reply =
    | Refused
    | RpcUnknown
    | Observed
    | SendReply(send: SendState)
    | ResultReply(result: GoalResult, captured: bool)
    | CancelReply(cancel: CancelState)

  // --- send ---

  /** A new goal may be entered. */
  predicate Admits(l: Ledger, capacity: nat, operation: string, body: string) {
    && !l.faulted && |l.goals| < capacity
    && l.recordedBytes + |body| <= MAX_BYTES
    && operation !in l.operations
    && forall i | i in l.goals :: !l.goals[i].pending
  }

  /** Written down before the native call. */
  function Enter(l: Ledger, operation: string, invocation: string, body: string, answer: Option<bool>): Ledger {
    l.(goals := l.goals[invocation := Entry(operation, body, SendEntered, None, true, None)],
       operations := l.operations[operation := invocation],
       recordedBytes := l.recordedBytes + |body|,
       sends := l.sends + [Sent(invocation, operation, answer)])
  }

  /** What the native answer makes of the entry; an answer that cannot be reported counts as unknown. */
  function Settle(l: Ledger, invocation: string, w: SendWeather): Ledger
    requires invocation in l.goals
  {
    var e := l.goals[invocation];
    match w.answer
    case Some(accepted) =>
      if w.replied then
        var send := if accepted then Accepted else Rejected;
        l.(goals := l.goals[invocation := e.(pending := accepted, send := send)])
      else l.(goals := l.goals[invocation := e.(pending := accepted, send := SendUnknown)], faulted := true)
    case None => l.(goals := l.goals[invocation := e.(send := SendUnknown)], faulted := true)
  }

  function SendStep(l: Ledger, capacity: nat, operation: string, invocation: string, body: string,
                    w: SendWeather): Ledger
  {
    if w.goalValid && invocation !in l.goals && Admits(l, capacity, operation, body) && w.inspected
    then Settle(Enter(l, operation, invocation, body, w.answer), invocation, w)
    else l
  }

  // --- result and cancel ---

  predicate Terminal(r: GoalResult) {
    r.status == 4 || r.status == 5 || r.status == 6
  }

  function ResultStep(l: Ledger, invocation: string, answer: Option<GoalResult>): Ledger {
    if invocation in l.goals && l.goals[invocation].result.None? && answer.Some? && Terminal(answer.value)
    then l.(goals := l.goals[invocation := l.goals[invocation].(result := answer, pending := false)])
    else l
  }

  function CancelStep(l: Ledger, invocation: string, w: CancelWeather): Ledger {
    if invocation !in l.goals || l.goals[invocation].cancel.Some? then l
    else
      var known := w.answer.Some? && w.onlyThisGoal && w.replied;
      var state := if known then CancelResponse(w.answer.value) else CancelUnknown;
      l.(goals := l.goals[invocation := l.goals[invocation].(cancel := Some(state))],
         faulted := l.faulted || !known,
         cancels := l.cancels + [invocation])
  }

  /** One command: the sequence number is taken before anything else is looked at. */
  function Step(l: Ledger, capacity: nat, c: Command): Ledger {
    if c.envelope.sequence <= l.sequence then l
    else
      var m := l.(sequence := c.envelope.sequence);
      if !Current(c.envelope) then m
      else match c
        case Send(_, operation, invocation, body, w) => SendStep(m, capacity, operation, invocation, body, w)
        case Result(_, invocation, answer) => ResultStep(m, invocation, answer)
        case Cancel(_, invocation, w) => CancelStep(m, invocation, w)
        case Inspect(_) => m
  }

  function Run(l: Ledger, capacity: nat, cs: seq<Command>): Ledger {
    if cs == [] then l else Step(Run(l, capacity, cs[..|cs| - 1]), capacity, cs[|cs| - 1])
  }

  // --- the invariant ---

  ghost function Bytes(g: map<string, Entry>): nat {
    if g == map[] then 0 else
      var k :| k in g;
      |g[k].body| + Bytes(g - {k})
  }

  lemma {:induction false} BytesWithout(g: map<string, Entry>, k: string)
    requires k in g
    ensures Bytes(g) == |g[k].body| + Bytes(g - {k})
    decreases |g|
  {
    var x :| x in g && Bytes(g) == |g[x].body| + Bytes(g - {x});
    if x != k {
      BytesWithout(g - {x}, k);
      BytesWithout(g - {k}, x);
      assert g - {x} - {k} == g - {k} - {x};
    }
  }

  lemma BytesUpdated(g: map<string, Entry>, k: string, e: Entry)
    ensures k in g && g[k].body == e.body ==> Bytes(g[k := e]) == Bytes(g)
    ensures k !in g ==> Bytes(g[k := e]) == Bytes(g) + |e.body|
  {
    BytesWithout(g[k := e], k);
    if k in g {
      BytesWithout(g, k);
      assert g[k := e] - {k} == g - {k};
    } else {
      assert g[k := e] - {k} == g;
    }
  }

  /** The operation map is exactly the inverse of the goal map. */
  ghost predicate Inverse(l: Ledger) {
    && (forall i | i in l.goals :: l.goals[i].operation in l.operations && l.operations[l.goals[i].operation] == i)
    && (forall o | o in l.operations :: l.operations[o] in l.goals && l.goals[l.operations[o]].operation == o)
  }

  ghost predicate OnePending(l: Ledger) {
    forall i, j | i in l.goals && j in l.goals && l.goals[i].pending && l.goals[j].pending :: i == j
  }

  /** An accepted goal stays pending until its result is captured; a rejected or answered one is not pending. */
  ghost predicate PendingExact(l: Ledger) {
    forall i | i in l.goals ::
      && (l.goals[i].send.Accepted? && l.goals[i].result.None? ==> l.goals[i].pending)
      && (l.goals[i].send.Rejected? || l.goals[i].result.Some? ==> !l.goals[i].pending)
  }

  ghost predicate SendsOnce(l: Ledger) {
    && (forall k | 0 <= k < |l.sends| ::
          l.sends[k].invocation in l.goals && l.goals[l.sends[k].invocation].operation == l.sends[k].operation)
    && (forall j, k | 0 <= j < k < |l.sends| ::
          l.sends[j].invocation != l.sends[k].invocation && l.sends[j].operation != l.sends[k].operation)
  }

  ghost predicate CancelsOnce(l: Ledger) {
    && (forall k | 0 <= k < |l.cancels| :: l.cancels[k] in l.goals && l.goals[l.cancels[k]].cancel.Some?)
    && (forall j, k | 0 <= j < k < |l.cancels| :: l.cancels[j] != l.cancels[k])
  }

  /** An unknown send or cancel has faulted the bridge. */
  ghost predicate FaultLatched(l: Ledger) {
    forall i | i in l.goals :: l.goals[i].send.SendUnknown? || l.goals[i].cancel == Some(CancelUnknown) ==> l.faulted
  }

  ghost predicate Inv(l: Ledger, capacity: nat) {
    && Inverse(l) && OnePending(l) && PendingExact(l) && SendsOnce(l) && CancelsOnce(l) && FaultLatched(l)
    && l.recordedBytes == Bytes(l.goals) && l.recordedBytes <= MAX_BYTES
    && |l.goals| <= capacity
  }

  lemma EnterInverse(l: Ledger, operation: string, invocation: string, body: string, answer: Option<bool>)
    requires Inverse(l) && invocation !in l.goals && operation !in l.operations
    ensures Inverse(Enter(l, operation, invocation, body, answer))
  {
    var m := Enter(l, operation, invocation, body, answer);
    forall i | i in m.goals ensures m.goals[i].operation in m.operations && m.operations[m.goals[i].operation] == i {
      if i != invocation {
        assert l.goals[i].operation in l.operations;
      }
    }
    forall o | o in m.operations ensures m.operations[o] in m.goals && m.goals[m.operations[o]].operation == o {
      if o != operation {
        assert l.operations[o] in l.goals;
      }
    }
  }

  lemma EnterSendsOnce(l: Ledger, operation: string, invocation: string, body: string, answer: Option<bool>)
    requires Inverse(l) && SendsOnce(l) && invocation !in l.goals && operation !in l.operations
    ensures SendsOnce(Enter(l, operation, invocation, body, answer))
  {
    forall k | 0 <= k < |l.sends| ensures l.sends[k].operation in l.operations && l.sends[k].invocation in l.goals {
      assert l.goals[l.sends[k].invocation].operation in l.operations;
    }
  }

  lemma EnterKeeps(l: Ledger, capacity: nat, operation: string, invocation: string, body: string,
                   answer: Option<bool>)
    requires Inv(l, capacity) && invocation !in l.goals && Admits(l, capacity, operation, body)
    ensures Inv(Enter(l, operation, invocation, body, answer), capacity)
  {
    hide Inverse, OnePending, PendingExact, SendsOnce, CancelsOnce, FaultLatched, Bytes;
    hide Enter;
    EnterSizes(l, capacity, operation, invocation, body, answer);
    EnterInverse(l, operation, invocation, body, answer);
    EnterSendsOnce(l, operation, invocation, body, answer);
    EnterOthers(l, operation, invocation, body, answer);
  }

  lemma EnterSizes(l: Ledger, capacity: nat, operation: string, invocation: string, body: string,
                   answer: Option<bool>)
    requires l.recordedBytes == Bytes(l.goals) && invocation !in l.goals && Admits(l, capacity, operation, body)
    ensures var m := Enter(l, operation, invocation, body, answer);
            m.recordedBytes == Bytes(m.goals) && m.recordedBytes <= MAX_BYTES && |m.goals| <= capacity
  {
    hide Bytes;
    var entry := Entry(operation, body, SendEntered, None, true, None);
    BytesUpdated(l.goals, invocation, entry);
    assert l.goals[invocation := entry].Keys == l.goals.Keys + {invocation};
  }

  lemma EnterOthers(l: Ledger, operation: string, invocation: string, body: string, answer: Option<bool>)
    requires CancelsOnce(l) && FaultLatched(l) && PendingExact(l) && invocation !in l.goals
    requires forall i | i in l.goals :: !l.goals[i].pending
    ensures var m := Enter(l, operation, invocation, body, answer);
            CancelsOnce(m) && FaultLatched(m) && OnePending(m) && PendingExact(m)
  {}

  /** An update that keeps operation, body and the monotone facts. */
  ghost predicate Steady(l: Ledger, i: string, e: Entry, faulted: bool) {
    && i in l.goals
    && e.operation == l.goals[i].operation && e.body == l.goals[i].body
    && (e.pending ==> l.goals[i].pending)
    && (e.send.Accepted? && e.result.None? ==> e.pending)
    && (e.send.Rejected? || e.result.Some? ==> !e.pending)
    && (l.goals[i].cancel.Some? ==> e.cancel.Some?)
    && (l.faulted ==> faulted)
    && (e.send.SendUnknown? || e.cancel == Some(CancelUnknown) ==> faulted)
  }

  function Updated(l: Ledger, i: string, e: Entry, faulted: bool): Ledger {
    l.(goals := l.goals[i := e], faulted := faulted)
  }

  lemma UpdateInverse(l: Ledger, i: string, e: Entry, faulted: bool)
    requires Inverse(l) && Steady(l, i, e, faulted)
    ensures Inverse(Updated(l, i, e, faulted))
  {
    var m := Updated(l, i, e, faulted);
    forall j | j in m.goals ensures m.goals[j].operation in m.operations && m.operations[m.goals[j].operation] == j {
      assert l.goals[j].operation in l.operations;
    }
    forall o | o in m.operations ensures m.operations[o] in m.goals && m.goals[m.operations[o]].operation == o {
      assert l.operations[o] in l.goals;
    }
  }

  lemma UpdateOthers(l: Ledger, i: string, e: Entry, faulted: bool)
    requires OnePending(l) && PendingExact(l) && SendsOnce(l) && CancelsOnce(l) && FaultLatched(l)
    requires Steady(l, i, e, faulted)
    ensures var m := Updated(l, i, e, faulted);
            OnePending(m) && PendingExact(m) && SendsOnce(m) && CancelsOnce(m) && FaultLatched(m)
  {}

  lemma UpdateKeeps(l: Ledger, capacity: nat, i: string, e: Entry, faulted: bool)
    requires Inv(l, capacity) && Steady(l, i, e, faulted)
    ensures Inv(Updated(l, i, e, faulted), capacity)
  {
    hide Inverse, OnePending, PendingExact, SendsOnce, CancelsOnce, FaultLatched, Bytes;
    BytesUpdated(l.goals, i, e);
    assert l.goals[i := e].Keys == l.goals.Keys;
    UpdateInverse(l, i, e, faulted);
    UpdateOthers(l, i, e, faulted);
  }

  lemma SendKeeps(l: Ledger, capacity: nat, o: string, i: string, body: string, w: SendWeather)
    requires Inv(l, capacity)
    ensures Inv(SendStep(l, capacity, o, i, body, w), capacity)
  {
    hide Inv, Bytes;
    if w.goalValid && i !in l.goals && Admits(l, capacity, o, body) && w.inspected {
      EnterKeeps(l, capacity, o, i, body, w.answer);
      var n := Enter(l, o, i, body, w.answer);
      var e, f := Settle(n, i, w).goals[i], Settle(n, i, w).faulted;
      assert Settle(n, i, w) == Updated(n, i, e, f);
      UpdateKeeps(n, capacity, i, e, f);
    }
  }

  lemma ResultKeeps(l: Ledger, capacity: nat, i: string, answer: Option<GoalResult>)
    requires Inv(l, capacity)
    ensures Inv(ResultStep(l, i, answer), capacity)
  {
    if ResultStep(l, i, answer) != l {
      var e := l.goals[i].(result := answer, pending := false);
      assert ResultStep(l, i, answer) == Updated(l, i, e, l.faulted);
      UpdateKeeps(l, capacity, i, e, l.faulted);
    }
  }

  lemma CancelKeeps(l: Ledger, capacity: nat, i: string, w: CancelWeather)
    requires Inv(l, capacity)
    ensures Inv(CancelStep(l, i, w), capacity)
  {
    if i in l.goals && l.goals[i].cancel.None? {
      var n := CancelStep(l, i, w);
      var m := Updated(l, i, n.goals[i], n.faulted);
      assert n == m.(cancels := m.cancels + [i]);
      UpdateKeeps(l, capacity, i, n.goals[i], n.faulted);
      assert i !in l.cancels;
      CancelLogged(m, i);
    }
  }

  lemma CancelLogged(m: Ledger, i: string)
    requires CancelsOnce(m) && i in m.goals && m.goals[i].cancel.Some? && i !in m.cancels
    ensures CancelsOnce(m.(cancels := m.cancels + [i]))
  {}

  lemma SequenceIsFree(l: Ledger, capacity: nat, sequence: nat)
    requires Inv(l, capacity)
    ensures Inv(l.(sequence := sequence), capacity)
  {}

  lemma StepKeeps(l: Ledger, capacity: nat, c: Command)
    requires Inv(l, capacity)
    ensures Inv(Step(l, capacity, c), capacity)
  {
    hide SendStep, ResultStep, CancelStep, Inv;
    var m := l.(sequence := c.envelope.sequence);
    SequenceIsFree(l, capacity, c.envelope.sequence);
    match c {
      case Send(_, o, i, body, w) => SendKeeps(m, capacity, o, i, body, w);
      case Result(_, i, answer) => ResultKeeps(m, capacity, i, answer);
      case Cancel(_, i, w) => CancelKeeps(m, capacity, i, w);
      case Inspect(_) =>
    }
  }

  /** In every run at most one goal is pending, the maps are inverse, each native call is entered once
      per key, and the recorded bytes are the stored bodies, within 16 MiB. */
  lemma {:induction false} RunKeeps(l: Ledger, capacity: nat, cs: seq<Command>)
    requires Inv(l, capacity)
    ensures Inv(Run(l, capacity, cs), capacity)
    decreases |cs|
  {
    if cs != [] {
      RunKeeps(l, capacity, cs[..|cs| - 1]);
      StepKeeps(Run(l, capacity, cs[..|cs| - 1]), capacity, cs[|cs| - 1]);
    }
  }

  /** What later commands never change: identity, body, a captured result, an entered cancel, the fault;
      and an answered send moves no more. */
  ghost predicate Lasts(l: Ledger, m: Ledger) {
    && l.sequence <= m.sequence
    && (l.faulted ==> m.faulted && m.sends == l.sends)
    && l.sends <= m.sends && l.cancels <= m.cancels
    && forall i | i in l.goals ::
         && i in m.goals
         && m.goals[i].operation == l.goals[i].operation && m.goals[i].body == l.goals[i].body
         && m.goals[i].send == l.goals[i].send
         && (l.goals[i].result.Some? ==> m.goals[i].result == l.goals[i].result)
         && (l.goals[i].cancel.Some? ==> m.goals[i].cancel == l.goals[i].cancel)
         && (m.goals[i].pending ==> l.goals[i].pending)
  }

  lemma SendLasts(l: Ledger, capacity: nat, o: string, i: string, body: string, w: SendWeather)
    ensures Lasts(l, SendStep(l, capacity, o, i, body, w))
  {}

  lemma ResultLasts(l: Ledger, i: string, answer: Option<GoalResult>)
    ensures Lasts(l, ResultStep(l, i, answer))
  {}

  lemma CancelLasts(l: Ledger, i: string, w: CancelWeather)
    ensures Lasts(l, CancelStep(l, i, w))
  {}

  lemma StepLasts(l: Ledger, capacity: nat, c: Command)
    ensures Lasts(l, Step(l, capacity, c))
  {
    hide SendStep, ResultStep, CancelStep;
    var m := l.(sequence := c.envelope.sequence);
    match c {
      case Send(_, o, i, body, w) => SendLasts(m, capacity, o, i, body, w);
      case Result(_, i, answer) => ResultLasts(m, i, answer);
      case Cancel(_, i, w) => CancelLasts(m, i, w);
      case Inspect(_) =>
    }
  }

  /** Captured results never change, and after an unknown send or cancel no new send is entered. */
  lemma {:induction false} RunLasts(l: Ledger, capacity: nat, cs: seq<Command>)
    ensures Lasts(l, Run(l, capacity, cs))
    decreases |cs|
  {
    if cs != [] {
      var m := Run(l, capacity, cs[..|cs| - 1]);
      RunLasts(l, capacity, cs[..|cs| - 1]);
      StepLasts(m, capacity, cs[|cs| - 1]);
      LastsTransitive(l, m, Run(l, capacity, cs));
    }
  }

  lemma LastsTransitive(a: Ledger, b: Ledger, c: Ledger)
    requires Lasts(a, b) && Lasts(b, c)
    ensures Lasts(a, c)
  {}

  /** Two sends of a run never share an invocation or an operation, and after a goal whose send or
      cancel is unknown none is entered any more. */
  lemma {:induction false} UnknownStopsSends(capacity: nat, cs: seq<Command>, more: seq<Command>, i: string)
    requires var l := Run(EMPTY, capacity, cs);
             i in l.goals && (l.goals[i].send.SendUnknown? || l.goals[i].cancel == Some(CancelUnknown))
    ensures Run(Run(EMPTY, capacity, cs), capacity, more).sends == Run(EMPTY, capacity, cs).sends
  {
    RunKeeps(EMPTY, capacity, cs);
    RunLasts(Run(EMPTY, capacity, cs), capacity, more);
  }

  // --- native answers ---

  /** The entry says what the native side answered: accepted and pending until a result is captured, rejected and
      not pending, or unknown and pending; an answer that could not be reported counts as unknown. */
  ghost predicate Recorded(e: Entry, answer: Option<bool>) {
    && (e.result.Some? ==> !e.pending)
    && (e.result.None? ==> (e.pending <==> answer != Some(false)))
    && (answer == Some(true) ==> e.send == Accepted || e.send == SendUnknown)
    && (answer == Some(false) ==> e.send == Rejected || e.send == SendUnknown)
    && (answer == None ==> e.send == SendUnknown)
  }

  ghost predicate AnswersRecorded(l: Ledger) {
    forall k | 0 <= k < |l.sends| ::
      l.sends[k].invocation in l.goals && Recorded(l.goals[l.sends[k].invocation], l.sends[k].answer)
  }

  lemma SendRecords(l: Ledger, capacity: nat, o: string, i: string, body: string, w: SendWeather)
    requires AnswersRecorded(l)
    ensures AnswersRecorded(SendStep(l, capacity, o, i, body, w))
  {
    hide Admits;
    var m := SendStep(l, capacity, o, i, body, w);
    if m != l {
      forall k | 0 <= k < |m.sends|
        ensures m.sends[k].invocation in m.goals && Recorded(m.goals[m.sends[k].invocation], m.sends[k].answer)
      {
        if k < |l.sends| {
          assert m.sends[k] == l.sends[k];
        }
      }
    }
  }

  lemma ResultRecords(l: Ledger, i: string, answer: Option<GoalResult>)
    requires AnswersRecorded(l)
    ensures AnswersRecorded(ResultStep(l, i, answer))
  {}

  lemma CancelRecords(l: Ledger, i: string, w: CancelWeather)
    requires AnswersRecorded(l)
    ensures AnswersRecorded(CancelStep(l, i, w))
  {}

  lemma StepRecords(l: Ledger, capacity: nat, c: Command)
    requires AnswersRecorded(l)
    ensures AnswersRecorded(Step(l, capacity, c))
  {
    hide SendStep, ResultStep, CancelStep;
    var m := l.(sequence := c.envelope.sequence);
    match c {
      case Send(_, o, i, body, w) => SendRecords(m, capacity, o, i, body, w);
      case Result(_, i, answer) => ResultRecords(m, i, answer);
      case Cancel(_, i, w) => CancelRecords(m, i, w);
      case Inspect(_) =>
    }
  }

  /** In every run the ledger says of each send what the native side answered. */
  lemma {:induction false} RunRecords(capacity: nat, cs: seq<Command>)
    ensures AnswersRecorded(Run(EMPTY, capacity, cs))
    decreases |cs|
  {
    hide Step;
    if cs != [] {
      RunRecords(capacity, cs[..|cs| - 1]);
      StepRecords(Run(EMPTY, capacity, cs[..|cs| - 1]), capacity, cs[|cs| - 1]);
    }
  }

  /** While a goal the native side accepted, or never answered for, has no captured result, no command
      enters another send. */
  lemma LiveGoalBlocksSends(capacity: nat, cs: seq<Command>, k: nat, c: Command)
    requires var l := Run(EMPTY, capacity, cs);
             && k < |l.sends| && l.sends[k].answer != Some(false)
             && l.sends[k].invocation in l.goals && l.goals[l.sends[k].invocation].result.None?
    ensures Step(Run(EMPTY, capacity, cs), capacity, c).sends == Run(EMPTY, capacity, cs).sends
  {
    RunRecords(capacity, cs);
    var l := Run(EMPTY, capacity, cs);
    assert Recorded(l.goals[l.sends[k].invocation], l.sends[k].answer);
  }

  // --- replies ---

  /** What the bridge says back, by the fields of the command and of the recorded goal. */
  function ReplyTo(l: Ledger, capacity: nat, c: Command): Reply {
    if c.envelope.sequence <= l.sequence then Refused
    else if !(c.envelope.nowNs < c.envelope.expiresAtNs <= c.envelope.nowNs + 1_000_000_000) then Refused
    else
      var m := l.(sequence := c.envelope.sequence);
      match c
      case Send(_, operation, invocation, body, w) => SendReplyTo(m, capacity, operation, invocation, body, w)
      case Result(_, invocation, answer) => ResultReplyTo(m, invocation, answer)
      case Cancel(_, invocation, w) => CancelReplyTo(m, invocation, w)
      case Inspect(_) => Observed
  }

  function SendReplyTo(l: Ledger, capacity: nat, operation: string, invocation: string, body: string,
                       w: SendWeather): Reply
  {
    if !w.goalValid then Refused
    else if invocation in l.goals then
      if (l.goals[invocation].operation, l.goals[invocation].body) == (operation, body)
      then SendReply(l.goals[invocation].send) else Refused
    else if l.faulted || |l.goals| >= capacity || l.recordedBytes + |body| > 16_777_216 || operation in l.operations
            || (exists i | i in l.goals :: l.goals[i].pending) || !w.inspected
    then Refused
    else if w.replied && w.answer == Some(true) then SendReply(Accepted)
    else if w.replied && w.answer == Some(false) then SendReply(Rejected)
    else SendReply(SendUnknown)
  }

  function ResultReplyTo(l: Ledger, invocation: string, answer: Option<GoalResult>): Reply {
    if invocation in l.goals && l.goals[invocation].result.Some?
    then ResultReply(l.goals[invocation].result.value, true)
    else match answer
      case None => RpcUnknown
      case Some(r) =>
        if r.status in {4, 5, 6} then ResultReply(r, true)
        else if r.status in {0, 1, 2, 3} then ResultReply(r, false)
        else Refused
  }

  function CancelReplyTo(l: Ledger, invocation: string, w: CancelWeather): Reply {
    if invocation !in l.goals then Refused
    else if l.goals[invocation].cancel.Some? then CancelReply(l.goals[invocation].cancel.value)
    else match w.answer
      case Some(code) => CancelReply(if w.onlyThisGoal && w.replied then CancelResponse(code) else CancelUnknown)
      case None => CancelReply(CancelUnknown)
  }

  /** What a reply says has been recorded: a send or cancel as reported, a captured result for good, and a goal
      is over exactly from a terminal status or a rejection on. */
  lemma RepliesAreRecorded(l: Ledger, capacity: nat, c: Command)
    ensures var r, m := ReplyTo(l, capacity, c), Step(l, capacity, c);
            && (r.SendReply? && c.Send? ==> c.invocation in m.goals && m.goals[c.invocation].send == r.send)
            && (r.SendReply? && c.Send? && c.invocation !in l.goals ==>
                  m.goals[c.invocation].pending == (c.sendWeather.answer != Some(false)))
            && (r.CancelReply? && c.Cancel? ==>
                  c.invocation in m.goals && m.goals[c.invocation].cancel == Some(r.cancel))
            && (r.ResultReply? && r.captured && c.Result? && c.invocation in l.goals ==>
                  m.goals[c.invocation].result == Some(r.result))
            && (r.ResultReply? && !r.captured ==> m.goals == l.goals)
            && (r.Refused? || r.RpcUnknown? || r.Observed? ==> m == l.(sequence := m.sequence))
  {
    hide Bytes;
  }
}
