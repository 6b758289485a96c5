/** The persistent engine: one loop over INITIALIZE, STEP, HALT and CLOSE
    (native/executor/engine.cpp:86-143). */
module Engine {
  import opened Options
  import opened ExecutorTypes
  import opened Continuity
  import opened ContextState
  import opened ContextObject
  import opened BehaviorTree
  import opened TickEffects
  import opened XmlTree
  import opened XmlUnfolding
  import opened ExecutorObject
  import opened ExecutorRuns
  import opened ExecutorTheorems

  /** A decoded packet; Malformed is whatever fails to parse or has foreign fields. */
  datatype Command =
    | Initialize(sequence: nat, config: Config, document: seq<Xml>)
    | Advance(sequence: nat, frame: Frame)
    | Halt(sequence: nat)
    | Close(sequence: nat)
    | Malformed

  datatype ReplyState = Ready | Stepped(status: Status) | Stale | Halted | Faulted

  datatype Reply = Reply(sequence: nat, state: ReplyState, requests: seq<Request>)

  /** The clock looks made while one command is handled. */
  datatype Looks = Looks(own: Reading, publish: Reading, tick: nat -> Reading, drain: nat -> Reading)

  ghost function Handed(replies: seq<Reply>): seq<Request> {
    if replies == [] then [] else Handed(replies[..|replies| - 1]) + replies[|replies| - 1].requests
  }

  /** From the first HALTED or FAULT reply on, no reply carries anything but a pause. */
  ghost predicate QuietOnceHalted(replies: seq<Reply>) {
    forall i, j | 0 <= i <= j < |replies| && (replies[i].state.Halted? || replies[i].state.Faulted?) ::
      forall r | r in replies[j].requests :: r.kind.PauseExecutor?
  }

  ghost predicate Orderly(replies: seq<Reply>) {
    forall i | 0 <= i < |replies| ::
      && |replies[i].requests| <= CAPACITY
      && (replies[i].state.Ready? ==> replies[i].requests == [])
      && (!replies[i].state.Faulted? ==> replies[i].sequence == i + 1)
  }

  /** The reply is one the command can have. */
  predicate Answers(command: Command, reply: Reply) {
    match command
    case Initialize(_, _, _) => reply.state.Ready? || reply.state.Faulted?
    case Advance(_, _) => reply.state.Stepped? || reply.state.Stale? || reply.state.Faulted?
    case Halt(_) | Close(_) => reply.state.Halted? || reply.state.Faulted?
    case Malformed => reply.state.Faulted?
  }

  /** The reply is the last: a fault, or the answer to CLOSE. */
  predicate Ends(command: Command, reply: Reply) {
    reply.state.Faulted? || command.Close?
  }

  /** The frame goes on from where the engine is: its identity, not an older revision, and checked before now
      on the engine's own clock. */
  predicate GoesOn(frame: Frame, identity: Identity, revision: nat, look: Reading) {
    && frame.identity == identity && revision <= frame.revision
    && frame.deadline.Some? && look.source.Some?
    && look.source.value.clockId == frame.deadline.value.clockId
    && frame.deadline.value.checkedAtNs <= look.source.value.ticksNs
  }

  /** The frame's source window has closed. */
  predicate Late(frame: Frame, look: Reading)
    requires frame.deadline.Some? && look.source.Some?
  {
    frame.deadline.value.validUntilNs <= look.source.value.ticksNs
  }

  /** One tick on a frame, as the engine runs it. */
  ghost function TickOn(t: Tree, frame: Frame, clock: nat -> Reading): Out {
    Tick(t, frame.nodes, LooksAt(Some(frame), clock), 0)
  }

  /** The context after it has accepted the frame and ticked once. */
  ghost function AfterStep(c: Config, t: Tree, s: State, frame: Frame, clock: nat -> Reading): State {
    Perform(c, BeginTick(Accept(s, frame)), TickOn(t, frame, clock).acts)
  }

  // --- commands and replies, step by step ---

  /** A context with its tree. */
  datatype Loaded = Loaded(config: Config, tree: Tree, state: State)

  /** What the engine's loop carries from one command to the next. */
  datatype Snapshot = Snapshot(loaded: Option<Loaded>, sequence: nat, revision: nat, halted: bool)

  const FRESH_ENGINE := Snapshot(None, 0, 0, false)

  predicate InSequence(s: Snapshot, command: Command) {
    !command.Malformed? && s.sequence < 0xFFFF_FFFF_FFFF_FFFF && command.sequence == s.sequence + 1
  }

  /** A command gets this reply and leaves this behind. */
  ghost predicate Relates(s: Snapshot, command: Command, looks: Looks, reply: Reply, s': Snapshot) {
    if !InSequence(s, command) then reply.state.Faulted?
    else
      var taken := s.(sequence := s.sequence + 1);
      match command
      case Initialize(_, config, document) => InitializeRelates(taken, config, document, reply, s')
      case Advance(_, frame) => StepRelates(taken, frame, looks, reply, s')
      case Halt(_) | Close(_) => HaltRelates(taken, looks, reply, s')
  }

  // From here on the sequence number of the command has been taken.

  ghost predicate InitializeRelates(s: Snapshot, config: Config, document: seq<Xml>, reply: Reply, s': Snapshot) {
    if s.loaded.None? && ValidConfig(config) && IsResolvedProcess(document, config) then
      && reply == Reply(s.sequence, Ready, [])
      && s' == Snapshot(Some(Loaded(config, Build(Body(document).value, config.definitions, config.root), FRESH_STATE)),
                        s.sequence, s.revision, s.halted)
    else reply.state.Faulted?
  }

  ghost predicate StepRelates(s: Snapshot, frame: Frame, looks: Looks, reply: Reply, s': Snapshot) {
    if s.loaded.None? || s.halted || !GoesOn(frame, s.loaded.value.config.identity, s.revision, looks.own)
    then reply.state.Faulted?
    else
      var at := s.loaded.value;
      if Late(frame, looks.own) then
        && reply == Reply(s.sequence, Stale, Taken(at.state, 32, looks.drain))
        && s' == s.(loaded := Some(at.(state := Drained(at.state, 32, looks.drain))))
      else
        var o := TickOn(at.tree, frame, looks.tick);
        if !Accepts(at.config, at.state.memory, FrameOf(at.state.incoming), frame, looks.publish) || o.status.Fault?
        then reply.state.Faulted?
        else
          var after := AfterStep(at.config, at.tree, at.state, frame, looks.tick);
          && reply == Reply(s.sequence, Stepped(o.status), Taken(after, 32, looks.drain))
          && s' == s.(loaded := Some(at.(state := Drained(after, 32, looks.drain))), revision := frame.revision)
  }

  ghost predicate HaltRelates(s: Snapshot, looks: Looks, reply: Reply, s': Snapshot) {
    if s.loaded.None? then reply.state.Faulted?
    else
      var at := s.loaded.value;
      var stopped := LatchPause(at.config, at.state);
      && reply == Reply(s.sequence, Halted, Taken(stopped, 32, looks.drain))
      && s' == s.(loaded := Some(at.(state := Drained(stopped, 32, looks.drain))), halted := true)
  }

  // --- a whole tick of the machine ---

  ghost function Finish(c: Config, t: Tree, m: Machine): Machine
    decreases |m.pending|
  {
    if m.pending == [] then m else Finish(c, t, Next(c, t, m, TickActs))
  }

  lemma {:induction false} FinishPerforms(c: Config, t: Tree, m: Machine)
    requires Inv(c, m)
    ensures var n := Finish(c, t, m);
            && Inv(c, n) && n.pending == [] && n.delivered == m.delivered
            && n.ctx == Perform(c, m.ctx, m.pending)
    decreases |m.pending|
  {
    if m.pending != [] {
      StepKeeps(c, t, m, TickActs);
      FinishPerforms(c, t, Next(c, t, m, TickActs));
      var a := [m.pending[0]];
      assert m.pending == a + m.pending[1..];
      PerformConcat(c, m.ctx, a, m.pending[1..]);
      assert a[..|a| - 1] == [];
      assert Perform(c, m.ctx, a[..|a| - 1]) == m.ctx;
    }
  }

  /** The machine that shadows a context between commands. */
  ghost predicate Shadows(m: Machine, context: Context)
    reads context
  {
    m.ctx == context.View() && m.pending == [] && ValidConfig(context.config) && Inv(context.config, m)
  }

  method PublishAndTick(executor: Executor, frame: Frame, looks: Looks, ghost m: Machine)
    returns (status: Status, accepted: bool, ghost n: Machine)
    requires executor.Valid() && Shadows(m, executor.context)
    modifies executor.context
    ensures Shadows(n, executor.context) && n.delivered == m.delivered
    ensures m.ctx.halted ==> n.ctx.halted
    ensures accepted <==> Accepts(executor.context.config, old(executor.context.Recall()),
                                  FrameOf(old(executor.context.incoming)), frame, looks.publish)
    ensures accepted ==>
              && FrameOf(executor.context.tick) == Some(frame)
              && status == TickOn(executor.tree, frame, looks.tick).status
              && executor.context.View() ==
                 AfterStep(executor.context.config, executor.tree, old(executor.context.View()), frame, looks.tick)
    ensures !accepted ==>
              executor.context.View() == Reject(executor.context.config, old(executor.context.View()))
  {
    hide Remember, Pruned, Fresh;
    hide Inv, Tick, Perform, ValidConfig, Agrees, Accepts;
    var context := executor.context;
    accepted := context.Publish(frame, looks.publish);
    n := Next(context.config, executor.tree, m, Arrives(frame, looks.publish));
    StepKeeps(context.config, executor.tree, m, Arrives(frame, looks.publish));
    status := Fault;
    if accepted {
      status := executor.Tick(looks.tick);
      StepKeeps(context.config, executor.tree, n, TickStarts(looks.tick));
      n := Next(context.config, executor.tree, n, TickStarts(looks.tick));
      FinishPerforms(context.config, executor.tree, n);
      n := Finish(context.config, executor.tree, n);
    }
  }

  method Latch(executor: Executor, ghost m: Machine) returns (ghost n: Machine)
    requires Shadows(m, executor.context)
    modifies executor.context
    ensures Shadows(n, executor.context) && n.delivered == m.delivered && n.ctx.halted
    ensures executor.context.View() == LatchPause(executor.context.config, old(executor.context.View()))
  {
    hide Inv;
    executor.Halt();
    n := Next(executor.context.config, executor.tree, m, Halts);
    StepKeeps(executor.context.config, executor.tree, m, Halts);
  }

  method Drain(context: Context, looks: Looks, ghost m: Machine) returns (requests: seq<Request>, ghost n: Machine)
    requires Shadows(m, context)
    modifies context`queue
    ensures Shadows(n, context) && n.delivered == m.delivered + requests && n.ctx.halted == m.ctx.halted
    ensures |requests| <= CAPACITY
    ensures m.ctx.halted ==> forall r | r in requests :: r.kind.PauseExecutor?
    ensures m.ctx.queue == [] ==> requests == []
    ensures requests == Taken(old(context.View()), 32, looks.drain)
    ensures context.View() == Drained(old(context.View()), 32, looks.drain)
  {
    hide Inv, Flags, Cut, Chosen, Resolves, Settled, ValidConfig;
    var answer := context.TakeRequests(CAPACITY, looks.drain);
    requests := answer.value;
    ghost var e := Drains(CAPACITY, looks.drain);
    ghost var t := Tree("", Sequence, []);
    n := Next(context.config, t, m, e);
    StepKeeps(context.config, t, m, e);
    DrainIsUnsettled(context.config, m, CAPACITY, looks.drain);
    DrainTakesFirst(m.ctx, CAPACITY, looks.drain);
    SameSize(m.ctx.queue, requests, n.ctx.queue);
  }

  // --- the loop ---

  lemma HandedGrows(replies: seq<Reply>, reply: Reply)
    ensures Handed(replies + [reply]) == Handed(replies) + reply.requests
  {
    var more := replies + [reply];
    assert more[..|more| - 1] == replies;
  }

  ghost predicate SomeHalted(replies: seq<Reply>) {
    exists i :: 0 <= i < |replies| && (replies[i].state.Halted? || replies[i].state.Faulted?)
  }

  lemma QuietGrows(replies: seq<Reply>, reply: Reply)
    requires QuietOnceHalted(replies)
    requires SomeHalted(replies) || reply.state.Halted? || reply.state.Faulted? ==>
               forall r | r in reply.requests :: r.kind.PauseExecutor?
    ensures QuietOnceHalted(replies + [reply])
  {
    var more := replies + [reply];
    forall i, j | 0 <= i <= j < |more| && (more[i].state.Halted? || more[i].state.Faulted?)
      ensures forall r | r in more[j].requests :: r.kind.PauseExecutor?
    {
      if j < |replies| {
        assert more[j] == replies[j] && more[i] == replies[i];
      }
    }
  }

  /** The variables of the engine's main loop; the machine and the replies are its history. */
  class Session {
    var executor: Executor?
    var sequence: nat
    var revision: nat
    var halted: bool
    var open: bool
    ghost var machine: Machine
    ghost var replies: seq<Reply>

    ghost predicate Sound()
      reads this, if executor == null then {} else {executor.context}
    {
      && (executor == null ==> machine == START && !halted && !SomeHalted(replies))
      && (executor != null ==> executor.Valid() && Shadows(machine, executor.context))
      && (halted || SomeHalted(replies) ==> machine.ctx.halted)
      && machine.delivered == Handed(replies)
      && QuietOnceHalted(replies) && Orderly(replies)
    }

    /** Between commands: every command so far has had its reply. */
    ghost predicate Valid()
      reads this, if executor == null then {} else {executor.context}
    {
      Sound() && |replies| == sequence
    }

    constructor ()
      ensures Valid() && History() && open && replies == [] && executor == null && Snap() == FRESH_ENGINE
    {
      executor, sequence, revision, halted, open := null, 0, 0, false, true;
      machine, replies := START, [];
    }

    ghost function Snap(): Snapshot
      reads this, executor, if executor == null then {} else {executor.context}
    {
      Snapshot(if executor == null then None
               else Some(Loaded(executor.context.config, executor.tree, executor.context.View())),
               sequence, revision, halted)
    }

    /** What the replies so far must satisfy, whatever comes next. */
    ghost predicate History()
      reads this
    {
      QuietOnceHalted(replies) && Orderly(replies) && DistinctKeys(Handed(replies))
    }

    /** A reply carries what one drain hands out. */
    method Answer(state: ReplyState, looks: Looks) returns (reply: Reply)
      requires Sound() && executor != null
      requires state.Halted? || state.Faulted? ==> machine.ctx.halted
      requires state.Ready? ==> machine.ctx.queue == []
      requires !state.Faulted? ==> sequence == |replies| + 1
      modifies `machine, `replies, executor.context`queue
      ensures Sound() && History() && replies == old(replies) + [reply] && reply.state == state
      ensures reply.sequence == sequence
      ensures reply.requests == Taken(old(executor.context.View()), 32, looks.drain)
      ensures executor.context.View() == Drained(old(executor.context.View()), 32, looks.drain)
    {
      hide Taken, Drained;
      hide Inv, Agrees, ValidConfig, QuietOnceHalted, DistinctKeys, Handed;
      var requests;
      ghost var n;
      requests, n := Drain(executor.context, looks, machine);
      reply := Reply(sequence, state, requests);
      HandedGrows(replies, reply);
      QuietGrows(replies, reply);
      machine, replies := n, replies + [reply];
      DeliveredKeysDistinct(executor.context.config, machine);
    }

    /** The catch block: halt if there is a tree, report, and leave the loop. */
    method Fail(looks: Looks) returns (reply: Reply)
      requires Sound() && open
      modifies `open, `machine, `replies, if executor == null then {} else {executor.context}
      ensures !open && replies == old(replies) + [reply] && reply.state.Faulted?
      ensures History()
      ensures executor == null ==> reply.requests == []
      ensures executor != null ==>
                var stopped := LatchPause(executor.context.config, old(executor.context.View()));
                reply.requests == Taken(stopped, 32, looks.drain)
    {
      hide Taken, Drained;
      hide Inv, Agrees, ValidConfig, QuietOnceHalted, Handed;
      open := false;
      if executor != null {
        machine := Latch(executor, machine);
        reply := Answer(Faulted, looks);
      } else {
        reply := Reply(sequence, Faulted, []);
        HandedGrows(replies, reply);
        QuietGrows(replies, reply);
        replies := replies + [reply];
      }
    }

    /** INITIALIZE: one context, one validated tree, no tick. */
    method HandleInitialize(config: Config, document: seq<Xml>, looks: Looks) returns (reply: Reply)
      requires Sound() && open && sequence == |replies| + 1
      modifies this, if executor == null then {} else {executor.context}
      ensures replies == old(replies) + [reply] && History()
      ensures open ==> Valid() && reply.state.Ready?
      ensures !open ==> reply.state.Faulted?
      ensures open <==> old(executor) == null && ValidConfig(config) && IsResolvedProcess(document, config)
      ensures sequence == old(sequence) && revision == old(revision) && halted == old(halted)
      ensures open ==> reply == Reply(sequence, Ready, [])
      ensures open ==> executor != null && executor.context.View() == FRESH_STATE && executor.context.config == config
                       && executor.tree == Build(Body(document).value, config.definitions, config.root)
      ensures old(executor) != null ==> executor == old(executor)
      ensures old(executor) == null && executor != null ==> fresh(executor.context)
      ensures InitializeRelates(old(Snap()), config, document, reply, Snap())
    {
      hide Inv, Agrees, QuietOnceHalted, DistinctKeys, Handed, IsResolvedProcess;
      if executor != null || !ValidConfig(config) {
        reply := Fail(looks);
        return;
      }
      var context := new Context(config);
      var made := NewExecutor(document, context);
      if made.None? {
        reply := Fail(looks);
        return;
      }
      executor := made.value;
      StartHolds(config);
      reply := Answer(Ready, looks);
    }

    predicate Running()
      reads this
    {
      executor != null && !halted
    }

    /** STEP: publish and tick once, unless the frame is foreign, from another clock, or merely late.
        STALE exactly for a frame that continues but is late; a status exactly for one that continues, is in
        time, is accepted and whose tick does not fault; a fault otherwise.  The requests are one drain of the
        context after that tick. */
    method HandleAdvance(frame: Frame, looks: Looks) returns (reply: Reply)
      requires Sound() && open && sequence == |replies| + 1
      modifies this, if executor == null then {} else {executor.context}
      ensures replies == old(replies) + [reply] && History() && executor == old(executor)
      ensures sequence == old(sequence) && halted == old(halted) && (open ==> reply.sequence == sequence)
      ensures open ==> Valid()
      ensures open <==> !reply.state.Faulted?
      ensures reply.state.Stepped? || reply.state.Stale? || reply.state.Faulted?
      ensures reply.state.Stale? <==>
                && old(Running()) && GoesOn(frame, executor.context.config.identity, old(revision), looks.own)
                && Late(frame, looks.own)
      ensures reply.state.Stale? ==>
                && revision == old(revision)
                && reply.requests == Taken(old(executor.context.View()), 32, looks.drain)
                && executor.context.View() == Drained(old(executor.context.View()), 32, looks.drain)
      ensures reply.state.Stepped? <==>
                && old(Running()) && GoesOn(frame, executor.context.config.identity, old(revision), looks.own)
                && !Late(frame, looks.own)
                && Accepts(executor.context.config, old(executor.context.Recall()),
                           FrameOf(old(executor.context.incoming)), frame, looks.publish)
                && !TickOn(executor.tree, frame, looks.tick).status.Fault?
      ensures reply.state.Stepped? ==>
                && revision == frame.revision
                && reply.state.status == TickOn(executor.tree, frame, looks.tick).status
                && var after := AfterStep(executor.context.config, executor.tree, old(executor.context.View()), frame,
                                          looks.tick);
                   && reply.requests == Taken(after, 32, looks.drain)
                   && executor.context.View() == Drained(after, 32, looks.drain)
      ensures StepRelates(old(Snap()), frame, looks, reply, Snap())
    {
      hide Inv, Agrees, ValidConfig, QuietOnceHalted, DistinctKeys, Handed, Orderly, Accepts;
      hide Taken, Drained, TickOn, AfterStep;
      if executor == null || halted || frame.identity != executor.context.config.identity || frame.revision < revision
         || frame.deadline.None? || looks.own.source.None?
         || looks.own.source.value.clockId != frame.deadline.value.clockId
         || looks.own.source.value.ticksNs < frame.deadline.value.checkedAtNs {
        reply := Fail(looks);
        return;
      }
      if looks.own.source.value.ticksNs >= frame.deadline.value.validUntilNs {
        reply := Answer(Stale, looks);
        return;
      }
      revision := frame.revision;
      var status, accepted;
      status, accepted, machine := PublishAndTick(executor, frame, looks, machine);
      if !accepted || status.Fault? {
        reply := Fail(looks);
      } else {
        reply := Answer(Stepped(status), looks);
      }
    }

    method StopNow()
      requires Sound() && executor != null
      modifies `halted, `machine, executor.context
      ensures Sound() && halted && machine.ctx.halted
      ensures executor.context.View() == LatchPause(executor.context.config, old(executor.context.View()))
    {
      hide Inv, Agrees, ValidConfig, QuietOnceHalted, DistinctKeys, Handed, Orderly;
      machine := Latch(executor, machine);
      halted := true;
    }

    /** HALT and CLOSE latch the stop. */
    method HandleHalt(close: bool, looks: Looks) returns (reply: Reply)
      requires Sound() && open && sequence == |replies| + 1
      modifies this, if executor == null then {} else {executor.context}
      ensures replies == old(replies) + [reply] && History() && executor == old(executor)
      ensures executor != null ==> halted && Valid() && reply.state.Halted?
      ensures executor == null ==> reply.state.Faulted?
      ensures open <==> executor != null && !close
      ensures executor != null ==>
                var stopped := LatchPause(executor.context.config, old(executor.context.View()));
                && reply == Reply(sequence, Halted, Taken(stopped, 32, looks.drain))
                && executor.context.View() == Drained(stopped, 32, looks.drain)
      ensures HaltRelates(old(Snap()), looks, reply, Snap())
    {
      hide Taken, Drained;
      hide Inv, Agrees, ValidConfig, QuietOnceHalted, DistinctKeys, Handed, Orderly;
      if executor == null {
        reply := Fail(looks);
        return;
      }
      StopNow();
      reply := Answer(Halted, looks);
      open := !close;
    }

    /** One packet; a sequence number out of step is as bad as a malformed packet. */
    method Handle(command: Command, looks: Looks) returns (reply: Reply)
      requires Valid() && open
      modifies this, if executor == null then {} else {executor.context}
      ensures replies == old(replies) + [reply] && History()
      ensures open ==> Valid()
      ensures Answers(command, reply) && (open <==> !Ends(command, reply))
      ensures Relates(old(Snap()), command, looks, reply, Snap())
      ensures old(executor) != null ==> executor == old(executor)
      ensures old(executor) == null && executor != null ==> fresh(executor.context)
    {
      hide Taken, Drained, TickOn, AfterStep, Accepts, IsResolvedProcess, Build;
      hide StepRelates, InitializeRelates, HaltRelates;
      hide Inv, Shadows, QuietOnceHalted, Orderly, DistinctKeys, Handed, Agrees, LatchPause, Late, GoesOn;
      if command.Malformed? || sequence >= U64 - 1 || command.sequence != sequence + 1 {
        reply := Fail(looks);
        return;
      }
      sequence := sequence + 1;
      match command
      case Initialize(_, config, document) => reply := HandleInitialize(config, document, looks);
      case Advance(_, frame) => reply := HandleAdvance(frame, looks);
      case Halt(_) => reply := HandleHalt(false, looks);
      case Close(_) => reply := HandleHalt(true, looks);
    }

  }

  /** The main loop, until CLOSE, a fault, or the end of input: one fitting reply per command up to the first
      that ends it.  Whatever the commands: no reply from
      the first HALTED or FAULT on carries work, no (node, kind) is handed out twice, no reply
      exceeds 32 requests, and READY carries none. */
  method Serve(commands: seq<Command>, looks: nat -> Looks) returns (replies: seq<Reply>, ghost states: seq<Snapshot>)
    ensures |replies| <= |commands| && |states| == |replies| + 1 && states[0] == FRESH_ENGINE
    ensures forall i | 0 <= i < |replies| :: Relates(states[i], commands[i], looks(i), replies[i], states[i + 1])
    ensures forall i | 0 <= i < |replies| :: Answers(commands[i], replies[i])
    ensures forall i | 0 <= i < |replies| - 1 :: !Ends(commands[i], replies[i])
    ensures |replies| < |commands| ==> replies != [] && Ends(commands[|replies| - 1], replies[|replies| - 1])
    ensures QuietOnceHalted(replies)
    ensures Orderly(replies)
    ensures DistinctKeys(Handed(replies))
  {
    hide Relates, Answers, Ends, QuietOnceHalted, Orderly, DistinctKeys, Handed, Inv, Shadows, SomeHalted, Agrees;
    var session := new Session();
    replies, states := [], [session.Snap()];
    var i := 0;
    while i < |commands| && session.open
      invariant 0 <= i <= |commands| && |replies| == i
      invariant replies == session.replies && session.History()
      invariant session.open ==> session.Valid()
      invariant forall k | 0 <= k < i :: Answers(commands[k], replies[k])
      invariant forall k | 0 <= k < i - 1 :: !Ends(commands[k], replies[k])
      invariant i > 0 ==> (session.open <==> !Ends(commands[i - 1], replies[i - 1]))
      invariant i == 0 ==> session.open
      invariant |states| == i + 1 && states[0] == FRESH_ENGINE && states[i] == session.Snap()
      invariant forall k | 0 <= k < i :: Relates(states[k], commands[k], looks(k), replies[k], states[k + 1])
      invariant fresh(session)
      invariant session.executor != null ==> fresh(session.executor.context)
    {
      var reply := session.Handle(commands[i], looks(i));
      replies, states, i := replies + [reply], states + [session.Snap()], i + 1;
    }
    if session.open && session.executor != null {
      session.StopNow();
    }
  }
}
