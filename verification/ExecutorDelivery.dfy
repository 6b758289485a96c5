/** What does get through, stated by what the frames show: which frames are refused and which accepted
    again, which proposals are queued and with what, which entries leave the queue, and when. */
module ExecutorDelivery {
  import opened Options
  import opened ExecutorTypes
  import opened Continuity
  import opened ContextState
  import opened BehaviorTree
  import opened TickOrder
  import opened TickEffects
  import opened ExecutorRuns
  import opened ExecutorTheorems

  // --- time ---

  /** The look falls before the frame's steady deadline and inside its source window, on the same clock. */
  predicate InTime(f: Frame, look: Reading) {
    && look.steady < f.validUntil
    && InWindow(f, look)
  }

  predicate InWindow(f: Frame, look: Reading) {
    match (f.deadline, look.source)
    case (None, _) => true
    case (Some(_), None) => false
    case (Some(bound), Some(now)) =>
      now.clockId == bound.clockId && bound.checkedAtNs <= now.ticksNs && now.ticksNs < bound.validUntilNs
  }

  /** The view may be acted on at this look. */
  predicate Actionable(view: Option<Stamped>, look: Reading) {
    view.Some? && view.value.frame.complete && view.value.frame.current && InTime(view.value.frame, look)
  }

  lemma UsableIffActionable(view: Option<Stamped>, look: Reading)
    ensures Usable(view, look) <==> Actionable(view, look)
  {}

  /** A tick none of whose looks finds its frame actionable runs on and asks for nothing. */
  lemma LateTickIsIdle(t: Tree, tick: Option<Stamped>, clock: nat -> Reading)
    requires forall k: nat :: !Actionable(tick, clock(k))
    ensures var o := Tick(t, NodesOf(tick), UsableBy(tick, clock), 0); o.acts == [] && o.status.Running?
  {
    var u := UsableBy(tick, clock);
    forall k: nat ensures !u(k) {
      UsableIffActionable(tick, clock(k));
      assert u(k) == Usable(tick, clock(k));
    }
    BlindTick(t, NodesOf(tick), u);
  }

  lemma BlindTick(t: Tree, nodes: Nodes, u: Clock)
    requires forall k: nat :: !u(k)
    ensures Tick(t, nodes, u, 0).acts == [] && Tick(t, nodes, u, 0).status.Running?
  {}

  // --- configurations ---

  /** A context is made exactly for an identity without gaps, with a digest of 64 characters and positive visit and
      epoch, and for 1 to 4096 definitions that include the root. */
  lemma ConfigIff(c: Config)
    ensures ValidConfig(c) <==>
            && c.identity.run != "" && c.identity.executorSession != "" && |c.identity.resolvedDigest| == 64
            && c.identity.visit != 0 && c.identity.epoch != 0
            && c.definitions != map[] && |c.definitions| <= 4096 && c.root in c.definitions.Keys
  {}

  // --- frames ---

  /** Each of these alone has a frame refused. */
  lemma FrameRefusedBy(c: Config, m: Memory, last: Option<Frame>, f: Frame, r: Reading)
    requires || f.identity != c.identity
             || (last.Some? && f.revision < last.value.revision)
             || !InWindow(f, r)
             || (exists n :: n in f.eligible && n !in c.definitions)
             || (exists n :: n in f.nodes && n !in c.definitions)
    ensures !Accepts(c, m, last, f, r)
  {}

  /** A node shown like this has its frame refused, whatever the memory. */
  predicate Incoherent(d: Definition, v: Observation) {
    || v.operationId == Some("") || v.decisionId == Some("") || v.clearance == Some("")
    || (v.released && (v.operationId.None? || v.outcome.NoOutcome? || !v.integrityValid))
    || (v.operationId.None? && !v.outcome.NoOutcome?)
    || (d.kind != Operation && (v.operationId.Some? || !v.outcome.NoOutcome? || v.released))
    || (d.kind != Branch && v.branch.Some?)
    || (d.kind != Wait && (v.wait.Satisfied? || v.wait.TimedOut?))
    || (d.kind != Intervention && v.clearance.Some?)
    || (v.decisionId.None? && (v.branch.Some? || v.wait.Satisfied? || v.wait.TimedOut?))
  }

  /** What is shown of the node takes back or changes something committed. */
  predicate Contradicts(m: Memory, n: string, v: Observation) {
    || (n in m.operations && v.operationId.Some? && v.operationId.value != m.operations[n])
    || (n in m.outcomes && v.outcome != m.outcomes[n])
    || (n in m.decisions && v.branch.Some? &&
        (v.decisionId, v.branch) != (Some(m.decisions[n].0), Some(m.decisions[n].1)))
    || (n in m.waits && (v.decisionId, v.wait) != (Some(m.waits[n].0), m.waits[n].1))
    || (v.operationId.Some? && exists o :: o in m.operations && o != n && m.operations[o] == v.operationId.value)
  }

  /** A complete frame that no longer shows something committed. */
  predicate Forgets(m: Memory, nodes: Nodes) {
    || (exists n :: n in m.operations && Shown(nodes, n).operationId != Some(m.operations[n]))
    || (exists n :: n in m.decisions && (Shown(nodes, n).decisionId != Some(m.decisions[n].0)
                                         || Shown(nodes, n).branch != Some(m.decisions[n].1)))
    || (exists n :: n in m.waits && (Shown(nodes, n).decisionId != Some(m.waits[n].0)
                                     || Shown(nodes, n).wait != m.waits[n].1))
  }

  lemma NodeFitsIff(defs: map<string, Definition>, m: Memory, n: string, v: Observation)
    requires n in defs
    ensures NodeFits(defs, m, n, v) <==> !Incoherent(defs[n], v) && !Contradicts(m, n, v)
  {}

  lemma KeepsIff(m: Memory, nodes: Nodes)
    requires Grounded(m)
    ensures Keeps(m, nodes) <==> !Forgets(m, nodes)
  {
    if !Forgets(m, nodes) {
      forall n | n in m.operations ensures KeepsOperation(m, nodes, n) {
        assert Shown(nodes, n).operationId == Some(m.operations[n]);
      }
      forall n | n in m.decisions ensures KeepsDecision(m, nodes, n) {
        assert Shown(nodes, n).branch == Some(m.decisions[n].1);
      }
      forall n | n in m.waits ensures KeepsWait(m, nodes, n) {
        assert Shown(nodes, n).wait == m.waits[n].1;
      }
    }
    if Keeps(m, nodes) {
      forall n | n in m.operations ensures Shown(nodes, n).operationId == Some(m.operations[n]) {
        assert KeepsOperation(m, nodes, n);
      }
      forall n | n in m.decisions
        ensures Shown(nodes, n).decisionId == Some(m.decisions[n].0) && Shown(nodes, n).branch == Some(m.decisions[n].1)
      {
        assert KeepsDecision(m, nodes, n);
      }
      forall n | n in m.waits
        ensures Shown(nodes, n).decisionId == Some(m.waits[n].0) && Shown(nodes, n).wait == m.waits[n].1
      {
        assert KeepsWait(m, nodes, n);
      }
    }
  }

  /** In a grounded memory a frame is accepted exactly when it is of this context, not older, in its window,
      about defined nodes only, shows no node incoherent or against memory, and if complete forgets nothing. */
  lemma {:induction false} AcceptedIff(c: Config, m: Memory, last: Option<Frame>, f: Frame, r: Reading)
    requires Grounded(m)
    ensures Accepts(c, m, last, f, r) <==>
            && f.identity == c.identity && InWindow(f, r)
            && (last.Some? ==> last.value.revision <= f.revision)
            && f.eligible <= c.definitions.Keys && f.nodes.Keys <= c.definitions.Keys
            && (forall n | n in f.nodes :: n in c.definitions ==>
                  !Incoherent(c.definitions[n], f.nodes[n]) && !Contradicts(m, n, f.nodes[n]))
            && (f.complete ==> !Forgets(m, f.nodes))
  {
    hide Incoherent, Contradicts, Forgets, Keeps, Grounded, NodeFits;
    KeepsIff(m, f.nodes);
    forall n | n in f.nodes && n in c.definitions
      ensures NodeFits(c.definitions, m, n, f.nodes[n]) <==>
              !Incoherent(c.definitions[n], f.nodes[n]) && !Contradicts(m, n, f.nodes[n])
    {
      NodeFitsIff(c.definitions, m, n, f.nodes[n]);
    }
    forall n | n in f.nodes && NodeFits(c.definitions, m, n, f.nodes[n]) ensures n in c.definitions {
      FitsDefined(c.definitions, m, n, f.nodes[n]);
    }
  }

  lemma FitsDefined(defs: map<string, Definition>, m: Memory, n: string, v: Observation)
    requires NodeFits(defs, m, n, v)
    ensures n in defs
  {}

  /** After a refused frame no look finds the view actionable until a frame is accepted. */
  lemma RefusedViewIsUnusable(c: Config, t: Tree, m: Machine, e: Step, look: Reading)
    requires e.Arrives? && !Takes(c, m, e)
    ensures var s := Next(c, t, m, e).ctx;
            && s.halted && s.memory == m.ctx.memory
            && !Usable(BeginTick(s).tick, look)
            && (m.ctx.incoming.Some? ==>
                  s.incoming.Some? && s.incoming.value.frame.nodes == m.ctx.incoming.value.frame.nodes
                  && s.incoming.value.frame.revision == m.ctx.incoming.value.frame.revision)
  {}

  /** An accepted frame is the view from then on, as it came. */
  lemma AcceptedIsTheView(c: Config, t: Tree, m: Machine, e: Step)
    requires Takes(c, m, e)
    ensures var s := Next(c, t, m, e).ctx;
            && FrameOf(s.incoming) == Some(e.frame) && s.tick == m.ctx.tick
            && s.halted == m.ctx.halted && s.requested == m.ctx.requested
            && FrameOf(BeginTick(s).tick) == Some(e.frame)
  {}

  // --- what a frame drops from the queue ---

  /** The frame shows what the request asks for. */
  predicate Granted(nodes: Nodes, r: Request) {
    var v := Shown(nodes, r.node);
    || (r.kind == SubmitOperation && v.operationId.Some?)
    || (r.kind == ResolveBranch && v.branch.Some?)
    || (r.kind == BeginWait && (v.wait.Satisfied? || v.wait.TimedOut?))
    || (r.kind == RequestHandover && v.released)
    || (r.kind == RequestIntervention && v.clearance.Some?)
  }

  lemma {:induction false} PrunedIff(q: seq<Request>, nodes: Nodes, r: Request)
    ensures r in Pruned(q, nodes) <==> r in q && !Granted(nodes, r)
    decreases |q|
  {
    if q != [] {
      PrunedIff(q[..|q| - 1], nodes, r);
      assert q == q[..|q| - 1] + [q[|q| - 1]];
    }
  }

  /** An accepted complete frame drops exactly the requests it grants, and an incomplete one none. */
  lemma AcceptedDropsGranted(c: Config, t: Tree, m: Machine, e: Step, r: Request)
    requires Takes(c, m, e)
    ensures r in Next(c, t, m, e).ctx.queue <==> r in m.ctx.queue && !(e.frame.complete && Granted(e.frame.nodes, r))
  {
    PrunedIff(m.ctx.queue, e.frame.nodes, r);
  }

  // --- what a proposal becomes ---

  /** A proposal on an actionable, authorised and eligible view that is still the incoming one, not asked before,
      with room in the queue and not under suppression, is queued with its definition's argument and timeout. */
  lemma ProposalQueued(c: Config, s: State, node: string, kind: RequestKind, look: Reading)
    requires node in c.definitions && (node, kind) !in s.requested && |s.queue| < 32 && !s.halted
    requires !s.suppress || kind in {RequestHandover, RequestIntervention}
    requires Actionable(s.tick, look) && s.incoming == s.tick
    requires s.tick.value.frame.submissionAuthorized && node in s.tick.value.frame.eligible
    ensures var n := Enqueue(c, s, node, kind, Usable(s.tick, look));
            && n.queue == s.queue + [Request(c.identity, node, kind, c.definitions[node].argument,
                                             c.definitions[node].timeoutNs)]
            && n.requested == s.requested + {(node, kind)}
  {}

  // --- the pause ---

  function ThePause(c: Config): Request {
    Request(c.identity, c.root, PauseExecutor, "", 0)
  }

  /** A halt, like a refused frame, puts the pause in front of the queue if it was never asked for, and stays. */
  lemma HaltQueuesThePause(c: Config, t: Tree, m: Machine, e: Step)
    requires e.Halts? || (e.Arrives? && !Takes(c, m, e))
    ensures var s := Next(c, t, m, e).ctx;
            && s.halted && (c.root, PauseExecutor) in s.requested
            && s.queue == (if (c.root, PauseExecutor) in m.ctx.requested then [] else [ThePause(c)]) + m.ctx.queue
            && s.memory == m.ctx.memory && s.tick == m.ctx.tick
  {
    assert [] + m.ctx.queue == m.ctx.queue;
  }

  lemma {:induction false} PauseNeverDropped(c: Config, t: Tree, es: seq<Step>)
    ensures forall r | r in Run(c, t, START, es).dropped :: !r.kind.PauseExecutor?
    decreases |es|
  {
    hide Next;
    if es != [] {
      PauseNeverDropped(c, t, es[..|es| - 1]);
      DropsNoPause(c, t, Run(c, t, START, es[..|es| - 1]), es[|es| - 1]);
    }
  }

  lemma DropsNoPause(c: Config, t: Tree, m: Machine, e: Step)
    requires forall r | r in m.dropped :: !r.kind.PauseExecutor?
    ensures forall r | r in Next(c, t, m, e).dropped :: !r.kind.PauseExecutor?
  {
    hide Accepts, Pruned, Taken, Tick, Remember, Discarded;
    if e.Arrives? {
      PruneSplits(m.ctx.queue, e.frame.nodes);
    }
  }

  /** Once the executor has halted, its pause waits in the queue until it is handed out. */
  lemma {:induction false} PauseWaits(c: Config, t: Tree, es: seq<Step>)
    requires var m := Run(c, t, START, es); m.ctx.halted && ThePause(c) !in m.delivered
    ensures ThePause(c) in Run(c, t, START, es).ctx.queue
  {
    hide Run, Settled, Grounded, Projection, MemoryMatches, StampsFresh, QueueOpen, PendingOpen, Bounded;
    StartHolds(c);
    RunKeeps(c, t, START, es);
    PauseNeverDropped(c, t, es);
    var m := Run(c, t, START, es);
    var i :| 0 <= i < |m.queued| && KeyOf(m.queued[i]) == (c.root, PauseExecutor);
    assert m.queued[i] in m.queued && WellMade(c, m.queued[i]);
    assert ThePause(c) in multiset(m.queued);
    assert ThePause(c) !in multiset(m.dropped) && ThePause(c) !in multiset(m.delivered);
    assert ThePause(c) in multiset(m.ctx.queue);
  }

  /** The first drain after a halt or a refused frame hands out the pause, whatever the view and the clock. */
  lemma {:induction false} PauseIsHandedOut(c: Config, t: Tree, es: seq<Step>, limit: nat, clock: nat -> Reading)
    requires var m := Run(c, t, START, es); m.ctx.halted && ThePause(c) !in m.delivered
    requires 0 < limit <= 32
    ensures var m := Run(c, t, START, es);
            && Taken(m.ctx, limit, clock) == [ThePause(c)]
            && Next(c, t, m, Drains(limit, clock)).delivered == m.delivered + [ThePause(c)]
  {
    hide Run, Inv, Taken, Drained;
    var m := Run(c, t, START, es);
    PauseWaits(c, t, es);
    StartHolds(c);
    RunKeeps(c, t, START, es);
    TakesSomething(m.ctx, ThePause(c), limit, clock);
    var taken := Taken(m.ctx, limit, clock);
    forall r | r in taken ensures r == ThePause(c) {
      TakenAfterHalt(c, t, m, limit, clock, r);
    }
    TakenDistinct(c, t, m, limit, clock);
    assert taken[0] in taken;
    SingleElement(taken, ThePause(c));
  }

  lemma SingleElement(q: seq<Request>, r: Request)
    requires DistinctKeys(q) && r in q && forall x | x in q :: x == r
    ensures q == [r]
  {
    assert forall i | 0 <= i < |q| :: q[i] in q;
    assert |q| >= 2 ==> KeyOf(q[0]) != KeyOf(q[1]);
  }

  lemma TakenAfterHalt(c: Config, t: Tree, m: Machine, limit: nat, clock: nat -> Reading, r: Request)
    requires Inv(c, m) && m.ctx.halted && r in Taken(m.ctx, limit, clock)
    ensures r == ThePause(c)
  {
    hide Taken, Drained, Settled, MemoryMatches, StampsFresh, QueueOpen, PendingOpen, Bounded, KeysAre;
    DrainIsUnsettled(c, m, limit, clock);
    DrainSplits(m.ctx, limit, clock);
    SameSize(m.ctx.queue, Taken(m.ctx, limit, clock), Drained(m.ctx, limit, clock).queue);
    LedgerMembers(m);
    assert WellMade(c, r);
  }

  lemma TakenDistinct(c: Config, t: Tree, m: Machine, limit: nat, clock: nat -> Reading)
    requires Inv(c, m) && 0 < limit <= 32
    ensures DistinctKeys(Taken(m.ctx, limit, clock))
  {
    hide Inv, Taken, Drained;
    var n := Next(c, t, m, Drains(limit, clock));
    StepKeeps(c, t, m, Drains(limit, clock));
    DeliveredKeysDistinct(c, n);
    var taken := Taken(m.ctx, limit, clock);
    forall i, j | 0 <= i < j < |taken| ensures KeyOf(taken[i]) != KeyOf(taken[j]) {
      assert n.delivered[|m.delivered| + i] == taken[i] && n.delivered[|m.delivered| + j] == taken[j];
    }
  }

  lemma {:induction false} ChosenHas(q: seq<Request>, d: seq<bool>, n: nat, i: nat)
    requires i < n <= |q| == |d| && d[i]
    ensures q[i] in Chosen(q, d, n, true)
    decreases n
  {
    if i < n - 1 {
      ChosenHas(q, d, n - 1, i);
    }
  }

  /** With a pause in the queue a drain comes back with something. */
  lemma TakesSomething(s: State, pause: Request, limit: nat, clock: nat -> Reading)
    requires pause in s.queue && pause.kind.PauseExecutor? && limit > 0
    ensures Taken(s, limit, clock) != []
  {
    hide Taken, Chosen;
    var i :| 0 <= i < |s.queue| && s.queue[i] == pause;
    var d := Flags(s, clock);
    assert d[i] == Deliverable(s, s.queue[i], clock(i));
    ChosenHas(s.queue, d, |s.queue|, i);
    DrainTakesFirst(s, limit, clock);
  }

  // --- ordinary requests ---

  /** The entries for eligible nodes, and the pauses, in order. */
  ghost function Entitled(q: seq<Request>, eligible: set<string>): seq<Request> {
    if q == [] then []
    else
      var r := q[|q| - 1];
      Entitled(q[..|q| - 1], eligible) + if r.kind == PauseExecutor || r.node in eligible then [r] else []
  }

  lemma {:induction false} ChosenIsEntitled(q: seq<Request>, d: seq<bool>, n: nat, eligible: set<string>)
    requires n <= |q| == |d|
    requires forall k | 0 <= k < n :: d[k] <==> q[k].kind == PauseExecutor || q[k].node in eligible
    ensures Chosen(q, d, n, true) == Entitled(q[..n], eligible)
    decreases n
  {
    if n > 0 {
      ChosenIsEntitled(q, d, n - 1, eligible);
      assert q[..n][..n - 1] == q[..n - 1];
    }
  }

  /** While the executor has not halted and its view is authorised and actionable at every look, a drain hands
      out the entries for eligible nodes, in order, up to the limit. */
  lemma EligibleIsHandedOut(s: State, limit: nat, clock: nat -> Reading)
    requires !s.halted && s.incoming.Some? && s.incoming.value.frame.submissionAuthorized
    requires forall k: nat | k < |s.queue| :: Actionable(s.incoming, clock(k))
    ensures var all := Entitled(s.queue, s.incoming.value.frame.eligible);
            Taken(s, limit, clock) == if |all| <= limit then all else all[..limit]
  {
    hide Taken, Chosen, Entitled;
    var d, eligible := Flags(s, clock), s.incoming.value.frame.eligible;
    forall k | 0 <= k < |s.queue| ensures d[k] <==> s.queue[k].kind == PauseExecutor || s.queue[k].node in eligible {
      assert Actionable(s.incoming, clock(k));
    }
    ChosenIsEntitled(s.queue, d, |s.queue|, eligible);
    assert s.queue[..|s.queue|] == s.queue;
    DrainTakesFirst(s, limit, clock);
  }

  /** What a drain leaves: the entries it did not get to, then those it skipped, each in order.  It stops as soon as
      it has enough, or at the end. */
  lemma RestOfDrain(s: State, limit: nat, clock: nat -> Reading) returns (c: nat)
    requires limit > 0
    ensures c <= |s.queue|
    ensures Taken(s, limit, clock) == Chosen(s.queue, Flags(s, clock), c, true)
    ensures Drained(s, limit, clock) == s.(queue := s.queue[c..] + Chosen(s.queue, Flags(s, clock), c, false))
    ensures c < |s.queue| ==> |Taken(s, limit, clock)| == limit
  {
    c := Cut(s.queue, Flags(s, clock), 0, limit);
    CutKeepsLimit(s.queue, Flags(s, clock), 0, limit);
  }

  /** And nothing but a pause is handed out otherwise: not after a halt, not without authority, not for a node
      that is not eligible, and not at a look the view does not cover. */
  lemma HandedOutInTime(s: State, limit: nat, clock: nat -> Reading, r: Request)
    requires r in Taken(s, limit, clock) && r.kind != PauseExecutor
    ensures !s.halted && s.incoming.Some? && s.incoming.value.frame.submissionAuthorized
    ensures r.node in s.incoming.value.frame.eligible && exists k: nat :: Actionable(s.incoming, clock(k))
  {
    ChosenAreFlagged(s, clock, Cut(s.queue, Flags(s, clock), 0, limit));
    var k: nat :| Deliverable(s, r, clock(k));
    assert Actionable(s.incoming, clock(k));
  }
}
