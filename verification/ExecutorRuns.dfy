/** Whole runs of the executor: frames arrive, a tick thread acts, a client drains, in any order.
    The tick thread's calls interleave with the others one by one, as the mutex allows. */
module ExecutorRuns {
  import opened Options
  import opened ExecutorTypes
  import opened Continuity
  import opened ContextState
  import opened BehaviorTree
  import opened TickOrder
  import opened TickEffects

  datatype Step =
    | Arrives(frame: Frame, look: Reading)
    | TickStarts(clock: nat -> Reading)
    | TickActs
    | Halts
    | Drains(limit: nat, clock: nat -> Reading)

  /** The context, the actions its running tick has still to take, and three logs. */
  datatype Machine = Machine(
    ctx: State,
    pending: seq<Action>,
    queued: seq<Request>,
    delivered: seq<Request>,
    dropped: seq<Request>)

  ghost const START := Machine(FRESH_STATE, [], [], [], [])

  ghost function Discarded(q: seq<Request>, nodes: Nodes): seq<Request> {
    if q == [] then []
    else Discarded(q[..|q| - 1], nodes) + (if Resolves(nodes, q[|q| - 1]) then [q[|q| - 1]] else [])
  }

  ghost predicate Takes(c: Config, m: Machine, e: Step) {
    e.Arrives? && Accepts(c, m.ctx.memory, FrameOf(m.ctx.incoming), e.frame, e.look)
  }

  ghost function Latched(c: Config, m: Machine, s: State): Machine {
    m.(ctx := s,
       queued := if (c.root, PauseExecutor) in m.ctx.requested then m.queued else m.queued + [PauseRequest(c)])
  }

  ghost function Next(c: Config, t: Tree, m: Machine, e: Step): Machine {
    match e
    case Arrives(f, look) =>
      if Takes(c, m, e)
      then m.(ctx := Accept(m.ctx, f),
              dropped := if f.complete then m.dropped + Discarded(m.ctx.queue, f.nodes) else m.dropped)
      else Latched(c, m, Reject(c, m.ctx))
    case TickStarts(clock) =>
      if m.pending != [] then m
      else
        var s := BeginTick(m.ctx);
        m.(ctx := s, pending := Tick(t, NodesOf(s.tick), UsableBy(s.tick, clock), 0).acts)
    case TickActs =>
      if m.pending == [] then m
      else
        var s := Act(c, m.ctx, m.pending[0]);
        m.(ctx := s,
           pending := m.pending[1..],
           queued := m.queued + s.queue[if |s.queue| > |m.ctx.queue| then |m.ctx.queue| else |s.queue|..])
    case Halts => Latched(c, m, LatchPause(c, m.ctx))
    case Drains(limit, clock) =>
      if limit == 0 || limit > CAPACITY then m
      else m.(ctx := Drained(m.ctx, limit, clock), delivered := m.delivered + Taken(m.ctx, limit, clock))
  }

  ghost function Run(c: Config, t: Tree, m: Machine, es: seq<Step>): Machine {
    if es == [] then m else Next(c, t, Run(c, t, m, es[..|es| - 1]), es[|es| - 1])
  }

  // --- the invariant ---

  ghost predicate DistinctKeys(q: seq<Request>) {
    forall i, j | 0 <= i < j < |q| :: KeyOf(q[i]) != KeyOf(q[j])
  }

  ghost predicate KeysAre(requested: set<Key>, q: seq<Request>) {
    && (forall r | r in q :: KeyOf(r) in requested)
    && (forall k | k in requested :: exists i :: 0 <= i < |q| && KeyOf(q[i]) == k)
  }

  ghost predicate WellMade(c: Config, r: Request) {
    if r.kind.PauseExecutor? then r == PauseRequest(c)
    else r.node in c.definitions && r == NewRequest(c, r.node, r.kind)
  }

  predicate HoldsComplete(s: Option<Stamped>) {
    s.Some? && s.value.frame.complete
  }

  /** Nothing queued is settled by a complete current view. */
  ghost predicate QueueOpen(s: State) {
    HoldsComplete(s.incoming) ==> forall r | r in s.queue :: !Resolves(s.incoming.value.frame.nodes, r)
  }

  ghost predicate MemoryMatches(s: State) {
    && Grounded(s.memory)
    && (HoldsComplete(s.incoming) ==> s.memory == Projection(s.incoming.value.frame.nodes))
  }

  ghost predicate StampsFresh(s: State) {
    && (s.incoming.Some? ==> s.incoming.value.stamp < s.stamps)
    && (s.tick.Some? ==> s.tick.value.stamp < s.stamps)
    && (s.incoming.Some? && s.tick.Some? && s.incoming.value.stamp == s.tick.value.stamp ==> s.incoming == s.tick)
  }

  ghost predicate PendingOpen(m: Machine) {
    m.pending != [] ==>
      && HoldsComplete(m.ctx.tick)
      && forall a | a in m.pending && a.Propose? ::
           && !a.kind.PauseExecutor?
           && forall r: Request | KeyOf(r) == (a.node, a.kind) :: !Resolves(m.ctx.tick.value.frame.nodes, r)
  }

  ghost predicate Bounded(c: Config, s: State) {
    |s.queue| <= CAPACITY + if (c.root, PauseExecutor) in s.requested then 1 else 0
  }

  ghost predicate Ledger(m: Machine) {
    multiset(m.queued) == multiset(m.ctx.queue) + multiset(m.delivered) + multiset(m.dropped)
  }

  ghost predicate Inv(c: Config, m: Machine) {
    && MemoryMatches(m.ctx)
    && StampsFresh(m.ctx)
    && QueueOpen(m.ctx)
    && PendingOpen(m)
    && Bounded(c, m.ctx)
    && Ledger(m)
    && DistinctKeys(m.queued) && KeysAre(m.ctx.requested, m.queued)
    && (forall r | r in m.queued :: WellMade(c, r))
    && (m.ctx.halted <==> (c.root, PauseExecutor) in m.ctx.requested)
  }

  // --- facts about queues ---

  lemma {:induction false} PruneSplits(q: seq<Request>, nodes: Nodes)
    ensures multiset(q) == multiset(Pruned(q, nodes)) + multiset(Discarded(q, nodes))
    ensures forall r | r in Pruned(q, nodes) :: r in q && !Resolves(nodes, r)
    ensures forall r | r in Discarded(q, nodes) :: r in q && Resolves(nodes, r)
    ensures |Pruned(q, nodes)| <= |q|
    decreases |q|
  {
    hide Pruned, Discarded, Resolves;
    if q == [] {
      PruneStep(q, nodes);
    } else {
      var init, r := q[..|q| - 1], q[|q| - 1];
      PruneSplits(init, nodes);
      PruneStep(q, nodes);
      SplitStep(init, Pruned(init, nodes), Discarded(init, nodes), r, !Resolves(nodes, r),
                q, Pruned(q, nodes), Discarded(q, nodes));
    }
    SameSize(q, Pruned(q, nodes), Discarded(q, nodes));
  }

  lemma PruneStep(q: seq<Request>, nodes: Nodes)
    ensures q == [] ==> Pruned(q, nodes) == [] && Discarded(q, nodes) == []
    ensures q != [] ==>
              var init, r := q[..|q| - 1], q[|q| - 1];
              && q == init + [r]
              && Pruned(q, nodes) == Pruned(init, nodes) + (if Resolves(nodes, r) then [] else [r])
              && Discarded(q, nodes) == Discarded(init, nodes) + (if Resolves(nodes, r) then [r] else [])
  {}

  lemma {:induction false} ChosenSplits(q: seq<Request>, d: seq<bool>, c: nat)
    requires c <= |q| == |d|
    ensures multiset(q[..c]) == multiset(Chosen(q, d, c, true)) + multiset(Chosen(q, d, c, false))
    decreases c
  {
    if c > 0 {
      ChosenSplits(q, d, c - 1);
      ChosenSplitsOnce(q, d, c);
    }
  }

  lemma ChosenSplitsOnce(q: seq<Request>, d: seq<bool>, c: nat)
    requires 0 < c <= |q| == |d|
    requires multiset(q[..c - 1]) == multiset(Chosen(q, d, c - 1, true)) + multiset(Chosen(q, d, c - 1, false))
    ensures multiset(q[..c]) == multiset(Chosen(q, d, c, true)) + multiset(Chosen(q, d, c, false))
  {
    hide Chosen;
    ChosenStep(q, d, c);
    var yes, no := Chosen(q, d, c - 1, true), Chosen(q, d, c - 1, false);
    assert q[..c] == q[..c - 1] + [q[c - 1]];
    SplitStep(q[..c - 1], yes, no, q[c - 1], d[c - 1], q[..c], Chosen(q, d, c, true), Chosen(q, d, c, false));
  }

  lemma SplitStep<T>(q: seq<T>, a: seq<T>, b: seq<T>, x: T, left: bool, q': seq<T>, a': seq<T>, b': seq<T>)
    requires multiset(q) == multiset(a) + multiset(b) && q' == q + [x]
    requires if left then a' == a + [x] && b' == b else a' == a && b' == b + [x]
    ensures multiset(q') == multiset(a') + multiset(b')
  {
    SplitGrows(q, a, b, x);
  }

  lemma ChosenStep(q: seq<Request>, d: seq<bool>, c: nat)
    requires 0 < c <= |q| == |d|
    ensures Chosen(q, d, c, d[c - 1]) == Chosen(q, d, c - 1, d[c - 1]) + [q[c - 1]]
    ensures Chosen(q, d, c, !d[c - 1]) == Chosen(q, d, c - 1, !d[c - 1])
  {}

  lemma SplitGrows<T>(q: seq<T>, a: seq<T>, b: seq<T>, x: T)
    requires multiset(q) == multiset(a) + multiset(b)
    ensures multiset(q + [x]) == multiset(a + [x]) + multiset(b)
    ensures multiset(q + [x]) == multiset(a) + multiset(b + [x])
  {}

  lemma SplitSwaps<T>(q: seq<T>, c: nat, a: seq<T>, b: seq<T>)
    requires c <= |q| && multiset(q[..c]) == multiset(a) + multiset(b)
    ensures multiset(q) == multiset(a) + multiset(q[c..] + b)
  {
    assert q == q[..c] + q[c..];
  }

  lemma DrainSplits(s: State, limit: nat, clock: nat -> Reading)
    ensures multiset(s.queue) == multiset(Taken(s, limit, clock)) + multiset(Drained(s, limit, clock).queue)
    ensures |Drained(s, limit, clock).queue| <= |s.queue|
    ensures forall r | r in Drained(s, limit, clock).queue :: r in s.queue
  {
    var d := Flags(s, clock);
    var c := Cut(s.queue, d, 0, limit);
    ChosenSplits(s.queue, d, c);
    var taken, kept := Taken(s, limit, clock), Drained(s, limit, clock).queue;
    SplitSwaps(s.queue, c, taken, Chosen(s.queue, d, c, false));
    SameSize(s.queue, taken, kept);
  }

  lemma SameSize(q: seq<Request>, a: seq<Request>, b: seq<Request>)
    requires multiset(q) == multiset(a) + multiset(b)
    ensures |q| == |a| + |b|
    ensures forall r | r in b :: r in q
    ensures forall r | r in a :: r in q
  {
    assert |multiset(q)| == |multiset(a)| + |multiset(b)|;
    forall r | r in b ensures r in q {
      assert r in multiset(b) && r in multiset(q);
    }
    forall r | r in a ensures r in q {
      assert r in multiset(a) && r in multiset(q);
    }
  }

  lemma AddKey(requested: set<Key>, q: seq<Request>, r: Request)
    requires DistinctKeys(q) && KeysAre(requested, q) && KeyOf(r) !in requested
    ensures DistinctKeys(q + [r]) && KeysAre(requested + {KeyOf(r)}, q + [r])
  {
    var more := q + [r];
    forall k | k in requested + {KeyOf(r)} ensures exists i :: 0 <= i < |more| && KeyOf(more[i]) == k {
      if k in requested {
        var i :| 0 <= i < |q| && KeyOf(q[i]) == k;
        assert KeyOf(more[i]) == k;
      } else {
        assert KeyOf(more[|q|]) == k;
      }
    }
  }

  lemma LedgerMembers(m: Machine)
    requires Ledger(m)
    ensures forall r | r in m.ctx.queue :: r in m.queued
    ensures forall r | r in m.delivered :: r in m.queued
  {
    forall r | r in m.ctx.queue ensures r in m.queued {
      assert r in multiset(m.queued);
    }
    forall r | r in m.delivered ensures r in m.queued {
      assert r in multiset(m.delivered);
      assert r in multiset(m.queued);
    }
  }

  // --- each step keeps the invariant ---

  lemma AcceptKeeps(c: Config, t: Tree, m: Machine, e: Step)
    requires Inv(c, m) && Takes(c, m, e)
    ensures Inv(c, Next(c, t, m, e))
  {
    var f := e.frame;
    var n := Next(c, t, m, e);
    AcceptedGrows(c, m.ctx.memory, FrameOf(m.ctx.incoming), f, e.look);
    if f.complete {
      CompleteIsProjection(c, m.ctx.memory, FrameOf(m.ctx.incoming), f, e.look);
      PruneSplits(m.ctx.queue, f.nodes);
    }
    assert Ledger(n);
  }

  lemma LatchKeeps(c: Config, m: Machine, s: State)
    requires Inv(c, m) && MemoryMatches(s) && StampsFresh(s)
    requires s == m.ctx.(incoming := s.incoming, stamps := s.stamps)
    requires HoldsComplete(s.incoming) ==> s.incoming == m.ctx.incoming
    ensures Inv(c, Latched(c, m, LatchPause(c, s)))
  {
    hide Grounded, Projection, KeysAre, DistinctKeys;
    var n := Latched(c, m, LatchPause(c, s));
    if (c.root, PauseExecutor) !in m.ctx.requested {
      AddKey(m.ctx.requested, m.queued, PauseRequest(c));
    }
    assert Ledger(n);
    assert QueueOpen(n.ctx);
  }

  lemma RejectKeeps(c: Config, t: Tree, m: Machine, e: Step)
    requires Inv(c, m) && e.Arrives? && !Takes(c, m, e)
    ensures Inv(c, Next(c, t, m, e))
  {
    var s := if m.ctx.incoming.None? then m.ctx else
      m.ctx.(incoming := Some(Stamped(m.ctx.stamps, m.ctx.incoming.value.frame.(complete := false, current := false))),
             stamps := m.ctx.stamps + 1);
    LatchKeeps(c, m, s);
  }

  /** A view that is not usable makes a tick that asks for nothing. */
  lemma BlindTickIsIdle(t: Tree, nodes: Nodes, u: Clock)
    requires forall k: nat :: !u(k)
    ensures Tick(t, nodes, u, 0).acts == []
  {}

  lemma BlindClock(tick: Option<Stamped>, clock: nat -> Reading)
    requires !HoldsComplete(tick)
    ensures forall k: nat :: !UsableBy(tick, clock)(k)
  {
    forall k: nat ensures !UsableBy(tick, clock)(k) {
      assert UsableBy(tick, clock)(k) == Usable(tick, clock(k));
    }
  }

  lemma TickStartKeeps(c: Config, t: Tree, m: Machine, e: Step)
    requires Inv(c, m) && e.TickStarts? && m.pending == []
    ensures Inv(c, Next(c, t, m, e))
  {
    var s := BeginTick(m.ctx);
    var u, nodes := UsableBy(s.tick, e.clock), NodesOf(s.tick);
    if !HoldsComplete(s.tick) {
      BlindClock(s.tick, e.clock);
      BlindTickIsIdle(t, nodes, u);
    }
    ProposalsAreDue(t, nodes, u, 0);
    forall a | a in Tick(t, nodes, u, 0).acts && a.Propose?
      ensures !a.kind.PauseExecutor? && forall r: Request | KeyOf(r) == (a.node, a.kind) :: !Resolves(nodes, r)
    {
      assert Due(t, nodes, a.node, a.kind);
    }
    assert PendingOpen(Next(c, t, m, e));
  }

  lemma TickActKeeps(c: Config, t: Tree, m: Machine, e: Step)
    requires Inv(c, m) && e.TickActs? && m.pending != []
    ensures Inv(c, Next(c, t, m, e))
  {
    var n := Next(c, t, m, e);
    var a := m.pending[0];
    if n.ctx.queue == m.ctx.queue {
      assert n == m.(ctx := m.ctx.(suppress := n.ctx.suppress), pending := m.pending[1..]);
    } else {
      var r := NewRequest(c, a.node, a.kind);
      assert n == Enqueued(m, r).(pending := m.pending[1..]);
      assert !Resolves(m.ctx.tick.value.frame.nodes, r);
      EnqueueKeeps(c, m, r);
    }
  }

  ghost function Enqueued(m: Machine, r: Request): Machine {
    m.(ctx := m.ctx.(queue := m.ctx.queue + [r], requested := m.ctx.requested + {KeyOf(r)}), queued := m.queued + [r])
  }

  lemma EnqueueKeeps(c: Config, m: Machine, r: Request)
    requires Inv(c, m) && WellMade(c, r) && !r.kind.PauseExecutor?
    requires KeyOf(r) !in m.ctx.requested && |m.ctx.queue| < CAPACITY
    requires HoldsComplete(m.ctx.incoming) ==> !Resolves(m.ctx.incoming.value.frame.nodes, r)
    ensures Inv(c, Enqueued(m, r))
  {
    AddKey(m.ctx.requested, m.queued, r);
    assert Ledger(Enqueued(m, r));
  }

  lemma DrainKeeps(c: Config, t: Tree, m: Machine, e: Step)
    requires Inv(c, m) && e.Drains?
    ensures Inv(c, Next(c, t, m, e))
  {
    hide Taken, Flags, Cut, Chosen, KeysAre, DistinctKeys, Grounded, Projection;
    DrainSplits(m.ctx, e.limit, e.clock);
    var n := Next(c, t, m, e);
    assert Ledger(n);
  }

  lemma StepKeeps(c: Config, t: Tree, m: Machine, e: Step)
    requires Inv(c, m)
    ensures Inv(c, Next(c, t, m, e))
  {
    match e {
      case Arrives(_, _) => if Takes(c, m, e) { AcceptKeeps(c, t, m, e); } else { RejectKeeps(c, t, m, e); }
      case TickStarts(_) => if m.pending == [] { TickStartKeeps(c, t, m, e); }
      case TickActs => if m.pending != [] { TickActKeeps(c, t, m, e); }
      case Halts => LatchKeeps(c, m, m.ctx);
      case Drains(_, _) => DrainKeeps(c, t, m, e);
    }
  }

  /** The invariant holds in every state of every run. */
  lemma {:induction false} RunKeeps(c: Config, t: Tree, m: Machine, es: seq<Step>)
    requires Inv(c, m)
    ensures Inv(c, Run(c, t, m, es))
    decreases |es|
  {
    if es != [] {
      RunKeeps(c, t, m, es[..|es| - 1]);
      StepKeeps(c, t, Run(c, t, m, es[..|es| - 1]), es[|es| - 1]);
    }
  }
}
