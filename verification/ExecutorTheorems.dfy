/** What holds of every run of the executor, from any reachable state on. */
module ExecutorTheorems {
  import opened ExecutorTypes
  import opened Continuity
  import opened ContextState
  import opened BehaviorTree
  import opened TickOrder
  import opened TickEffects
  import opened ExecutorRuns

  lemma StartHolds(c: Config)
    ensures Inv(c, START)
  {}

  // --- continuity memory ---

  lemma StepRemembers(c: Config, t: Tree, m: Machine, e: Step)
    ensures Grows(m.ctx.memory, Next(c, t, m, e).ctx.memory)
  {
    if Takes(c, m, e) {
      AcceptedGrows(c, m.ctx.memory, FrameOf(m.ctx.incoming), e.frame, e.look);
    }
  }

  /** Accepted or rejected, frames only ever add bindings; none is changed or lost. */
  lemma {:induction false} RunRemembers(c: Config, t: Tree, m: Machine, es: seq<Step>)
    ensures Grows(m.ctx.memory, Run(c, t, m, es).ctx.memory)
    decreases |es|
  {
    if es != [] {
      RunRemembers(c, t, m, es[..|es| - 1]);
      StepRemembers(c, t, Run(c, t, m, es[..|es| - 1]), es[|es| - 1]);
    }
  }

  /** Whenever the view held is complete, the memory is its projection. */
  lemma MemoryIsProjection(c: Config, t: Tree, es: seq<Step>)
    ensures var s := Run(c, t, START, es).ctx;
            HoldsComplete(s.incoming) ==> s.memory == Projection(s.incoming.value.frame.nodes)
  {
    StartHolds(c);
    RunKeeps(c, t, START, es);
  }

  /** Every accepted frame of the run names each operation id once. */
  ghost predicate AcceptedIdsDistinct(c: Config, t: Tree, m: Machine, es: seq<Step>) {
    es != [] ==>
      && AcceptedIdsDistinct(c, t, m, es[..|es| - 1])
      && (Takes(c, Run(c, t, m, es[..|es| - 1]), es[|es| - 1]) ==> OwnIdsDistinct(es[|es| - 1].frame.nodes))
  }

  /** Remembered operation ids are injective exactly as long as no accepted frame repeats one. */
  lemma {:induction false} InjectiveIffFramesDistinct(c: Config, t: Tree, m: Machine, es: seq<Step>)
    requires Injective(m.ctx.memory.operations)
    ensures Injective(Run(c, t, m, es).ctx.memory.operations) <==> AcceptedIdsDistinct(c, t, m, es)
    decreases |es|
  {
    if es != [] {
      var before, e := Run(c, t, m, es[..|es| - 1]), es[|es| - 1];
      InjectiveIffFramesDistinct(c, t, m, es[..|es| - 1]);
      StepRemembers(c, t, before, e);
      if Injective(before.ctx.memory.operations) {
        if Takes(c, before, e) {
          InjectivityKeptIff(c, before.ctx.memory, FrameOf(before.ctx.incoming), e.frame, e.look);
        }
      } else {
        SharingPersists(before.ctx.memory.operations, Next(c, t, before, e).ctx.memory.operations);
      }
    }
  }

  lemma SharingPersists(a: map<string, string>, b: map<string, string>)
    requires !Injective(a) && Within(a, b)
    ensures !Injective(b)
  {
    var x, y :| x in a && y in a && a[x] == a[y] && x != y;
    assert b[x] == b[y];
  }

  /** After a repeated id, every complete frame is refused, for good. */
  lemma {:induction false} SharedIdsRefuseForever(c: Config, t: Tree, m: Machine, es: seq<Step>, e: Step)
    requires !Injective(m.ctx.memory.operations) && e.Arrives? && e.frame.complete
    ensures !Takes(c, Run(c, t, m, es), e)
  {
    RunRemembers(c, t, m, es);
    var n := Run(c, t, m, es);
    SharingPersists(m.ctx.memory.operations, n.ctx.memory.operations);
    SharedIdRejectsComplete(c, n.ctx.memory, FrameOf(n.ctx.incoming), e.frame, e.look);
  }

  /** The revision held never falls. */
  lemma {:induction false} RevisionsNeverFall(c: Config, t: Tree, m: Machine, es: seq<Step>)
    requires m.ctx.incoming.Some?
    ensures var n := Run(c, t, m, es).ctx.incoming;
            n.Some? && m.ctx.incoming.value.frame.revision <= n.value.frame.revision
    decreases |es|
  {
    hide Next;
    if es != [] {
      RevisionsNeverFall(c, t, m, es[..|es| - 1]);
      RevisionStep(c, t, Run(c, t, m, es[..|es| - 1]), es[|es| - 1]);
    }
  }

  lemma RevisionStep(c: Config, t: Tree, m: Machine, e: Step)
    requires m.ctx.incoming.Some?
    ensures var n := Next(c, t, m, e).ctx.incoming;
            n.Some? && m.ctx.incoming.value.frame.revision <= n.value.frame.revision
  {
    hide Remember, Pruned, Discarded, Taken, Tick, NodesFit, Keeps;
  }

  // --- what is queued ---

  lemma {:induction false} PendingStaysDue(c: Config, t: Tree, es: seq<Step>)
    ensures var m := Run(c, t, START, es); OnlyDue(m.pending, t, NodesOf(m.ctx.tick))
    decreases |es|
  {
    hide Next;
    if es != [] {
      PendingStaysDue(c, t, es[..|es| - 1]);
      PendingStep(c, t, Run(c, t, START, es[..|es| - 1]), es[|es| - 1]);
    }
  }

  lemma PendingStep(c: Config, t: Tree, m: Machine, e: Step)
    requires OnlyDue(m.pending, t, NodesOf(m.ctx.tick))
    ensures var n := Next(c, t, m, e); OnlyDue(n.pending, t, NodesOf(n.ctx.tick))
  {
    hide Accepts, Remember, Pruned, Discarded, Taken, Tick, Due;
    if e.TickStarts? {
      var tick := BeginTick(m.ctx).tick;
      ProposalsAreDue(t, NodesOf(tick), UsableBy(tick, e.clock), 0);
    }
  }

  /** Order safety over runs: what a tick gets into the queue, whatever happens meanwhile, is due in the one
      frame that is both the tick's and the current one, and that frame is complete, current and authorises it. */
  lemma {:induction false} QueuedIsDueAndAuthorised(c: Config, t: Tree, es: seq<Step>, r: Request)
    requires var m := Run(c, t, START, es); var n := Next(c, t, m, TickActs); r in n.queued[|m.queued|..]
    ensures var s := Run(c, t, START, es).ctx;
            && s.incoming.Some? && s.tick == s.incoming && !s.halted
            && var f := s.incoming.value.frame;
            && f.complete && f.current && f.submissionAuthorized && r.node in f.eligible
            && Due(t, f.nodes, r.node, r.kind)
            && !(s.suppress && StartsWork(r.kind))
            && WellMade(c, r)
  {
    hide Due, Grounded, Projection, KeysAre, DistinctKeys, Run;
    StartHolds(c);
    RunKeeps(c, t, START, es);
    PendingStaysDue(c, t, es);
    var m := Run(c, t, START, es);
    RunKeepsStep(c, t, m);
    assert r in Next(c, t, m, TickActs).queued;
  }

  lemma RunKeepsStep(c: Config, t: Tree, m: Machine)
    requires Inv(c, m)
    ensures Inv(c, Next(c, t, m, TickActs))
  {
    StepKeeps(c, t, m, TickActs);
  }

  // --- what is handed out ---

  /** The memory already settles a request of this kind for this node. */
  ghost predicate Settled(mem: Memory, k: Key) {
    || (k.1.SubmitOperation? && k.0 in mem.operations)
    || (k.1.ResolveBranch? && k.0 in mem.decisions)
    || (k.1.BeginWait? && k.0 in mem.waits)
  }

  lemma {:induction false} ChosenAreFlagged(s: State, clock: nat -> Reading, n: nat)
    requires n <= |s.queue|
    ensures forall r | r in Chosen(s.queue, Flags(s, clock), n, true) ::
              r in s.queue && exists k: nat :: Deliverable(s, r, clock(k))
    decreases n
  {
    if n > 0 {
      ChosenAreFlagged(s, clock, n - 1);
      if Flags(s, clock)[n - 1] {
        assert Deliverable(s, s.queue[n - 1], clock(n - 1));
      }
    }
  }

  /** A drain hands out nothing the view or the memory already settles, except the pause. */
  lemma DrainIsUnsettled(c: Config, m: Machine, limit: nat, clock: nat -> Reading)
    requires Inv(c, m)
    ensures forall r | r in Taken(m.ctx, limit, clock) && !r.kind.PauseExecutor? ::
              && !m.ctx.halted
              && HoldsComplete(m.ctx.incoming)
              && m.ctx.incoming.value.frame.current && m.ctx.incoming.value.frame.submissionAuthorized
              && r.node in m.ctx.incoming.value.frame.eligible
              && (exists k: nat :: Fresh(m.ctx.incoming.value.frame, clock(k)))
              && !Resolves(m.ctx.incoming.value.frame.nodes, r)
              && !Settled(m.ctx.memory, KeyOf(r))
  {
    ChosenAreFlagged(m.ctx, clock, Cut(m.ctx.queue, Flags(m.ctx, clock), 0, limit));
  }

  /** Delivered by the run, in addition to what had been delivered before. */
  ghost predicate HandedOut(m: Machine, n: Machine, r: Request) {
    m.delivered <= n.delivered && r in n.delivered[|m.delivered|..]
  }

  lemma {:induction false} DeliveriesGrow(c: Config, t: Tree, m: Machine, es: seq<Step>)
    ensures m.delivered <= Run(c, t, m, es).delivered
    decreases |es|
  {
    hide Next, Batch;
    if es != [] {
      DeliveriesGrow(c, t, m, es[..|es| - 1]);
      StepDelivers(c, t, Run(c, t, m, es[..|es| - 1]), es[|es| - 1]);
    }
  }

  /** What the last step of a run adds to the deliveries. */
  lemma LastDelivery(c: Config, t: Tree, m: Machine, es: seq<Step>, r: Request)
    requires es != [] && HandedOut(m, Run(c, t, m, es), r)
    ensures var before, e := Run(c, t, m, es[..|es| - 1]), es[|es| - 1];
            HandedOut(m, before, r) || (e.Drains? && r in Taken(before.ctx, e.limit, e.clock))
  {
    DeliveriesGrow(c, t, m, es[..|es| - 1]);
    var before, e := Run(c, t, m, es[..|es| - 1]), es[|es| - 1];
    StepDelivers(c, t, before, e);
    assert (before.delivered + Batch(before, e))[|m.delivered|..] ==
           before.delivered[|m.delivered|..] + Batch(before, e);
  }

  ghost function Batch(m: Machine, e: Step): seq<Request> {
    if e.Drains? && 0 < e.limit <= CAPACITY then Taken(m.ctx, e.limit, e.clock) else []
  }

  lemma StepDelivers(c: Config, t: Tree, m: Machine, e: Step)
    ensures Next(c, t, m, e).delivered == m.delivered + Batch(m, e)
  {}

  /** Once an accepted frame has bound an operation, committed a branch or ended a wait,
      that request is never handed out again. */
  lemma {:induction false} SettledNeverHandedOut(c: Config, t: Tree, m: Machine, es: seq<Step>, r: Request)
    requires Inv(c, m) && HandedOut(m, Run(c, t, m, es), r)
    ensures !Settled(m.ctx.memory, KeyOf(r))
    decreases |es|
  {
    if es != [] {
      var before, e := Run(c, t, m, es[..|es| - 1]), es[|es| - 1];
      LastDelivery(c, t, m, es, r);
      if HandedOut(m, before, r) {
        SettledNeverHandedOut(c, t, m, es[..|es| - 1], r);
      } else {
        RunKeeps(c, t, m, es[..|es| - 1]);
        RunRemembers(c, t, m, es[..|es| - 1]);
        DrainIsUnsettled(c, before, e.limit, e.clock);
      }
    }
  }

  lemma {:induction false} OnceInDistinct(q: seq<Request>, r: Request)
    requires DistinctKeys(q)
    ensures multiset(q)[r] <= 1
    decreases |q|
  {
    if q != [] {
      var init := q[..|q| - 1];
      OnceInDistinct(init, r);
      assert q == init + [q[|q| - 1]];
      if r == q[|q| - 1] {
        assert r !in init;
      }
    }
  }

  /** No (node, kind) is ever delivered twice. */
  lemma {:induction false} DeliveredOnce(c: Config, t: Tree, es: seq<Step>)
    ensures DistinctKeys(Run(c, t, START, es).delivered)
  {
    StartHolds(c);
    RunKeeps(c, t, START, es);
    DeliveredKeysDistinct(c, Run(c, t, START, es));
  }

  lemma {:induction false} DeliveredKeysDistinct(c: Config, m: Machine)
    requires Inv(c, m)
    ensures DistinctKeys(m.delivered)
  {
    LedgerMembers(m);
    forall i, j | 0 <= i < j < |m.delivered| ensures KeyOf(m.delivered[i]) != KeyOf(m.delivered[j]) {
      var a, b := m.delivered[i], m.delivered[j];
      assert a in m.queued && b in m.queued;
      OnceInDistinct(m.queued, a);
      assert multiset(m.delivered)[a] <= multiset(m.queued)[a];
      if a == b {
        TwiceCounted(m.delivered, i, j);
      }
    }
  }

  lemma TwiceCounted(q: seq<Request>, i: nat, j: nat)
    requires i < j < |q| && q[i] == q[j]
    ensures multiset(q)[q[i]] >= 2
  {
    assert q == q[..i] + [q[i]] + q[i + 1..j] + [q[j]] + q[j + 1..];
  }

  /** Conservation: every request ever queued is still queued, was delivered, or was dropped
      by a frame that settled it, and the queue never holds more than 33. */
  lemma QueueConserved(c: Config, t: Tree, es: seq<Step>)
    ensures var m := Run(c, t, START, es);
            && multiset(m.queued) == multiset(m.ctx.queue) + multiset(m.delivered) + multiset(m.dropped)
            && DistinctKeys(m.queued)
            && (forall r | r in m.queued :: WellMade(c, r))
            && |m.ctx.queue| <= 33
  {
    StartHolds(c);
    RunKeeps(c, t, START, es);
  }

  /** What a frame dropped from the queue it settled, and it stays settled. */
  lemma {:induction false} DroppedStaySettled(c: Config, t: Tree, es: seq<Step>)
    ensures var m := Run(c, t, START, es);
            forall r | r in m.dropped && r.kind in {SubmitOperation, ResolveBranch, BeginWait} ::
              Settled(m.ctx.memory, KeyOf(r))
    decreases |es|
  {
    hide Next;
    if es != [] {
      DroppedStaySettled(c, t, es[..|es| - 1]);
      DroppedStep(c, t, Run(c, t, START, es[..|es| - 1]), es[|es| - 1]);
    }
  }

  lemma DroppedStep(c: Config, t: Tree, m: Machine, e: Step)
    requires forall r | r in m.dropped && StartsWork(r.kind) :: Settled(m.ctx.memory, KeyOf(r))
    ensures var n := Next(c, t, m, e);
            forall r | r in n.dropped && StartsWork(r.kind) :: Settled(n.ctx.memory, KeyOf(r))
  {
    hide Pruned, Discarded, Taken, Tick;
    StepRemembers(c, t, m, e);
    if Takes(c, m, e) && e.frame.complete {
      PruneSplits(m.ctx.queue, e.frame.nodes);
      forall n | n in e.frame.nodes ensures NodeFits(c.definitions, m.ctx.memory, n, e.frame.nodes[n]) {}
    }
  }

  // --- the halt latch ---

  lemma {:induction false} HaltStays(c: Config, t: Tree, m: Machine, es: seq<Step>)
    requires m.ctx.halted
    ensures Run(c, t, m, es).ctx.halted
    decreases |es|
  {
    if es != [] {
      HaltStays(c, t, m, es[..|es| - 1]);
    }
  }

  /** After the first halt or refused frame nothing but the pause is handed out. */
  lemma {:induction false} OnlyPauseAfterHalt(c: Config, t: Tree, m: Machine, es: seq<Step>, r: Request)
    requires Inv(c, m) && m.ctx.halted && HandedOut(m, Run(c, t, m, es), r)
    ensures r == PauseRequest(c)
    decreases |es|
  {
    if es != [] {
      var before, e := Run(c, t, m, es[..|es| - 1]), es[|es| - 1];
      LastDelivery(c, t, m, es, r);
      if HandedOut(m, before, r) {
        OnlyPauseAfterHalt(c, t, m, es[..|es| - 1], r);
      } else {
        HaltStays(c, t, m, es[..|es| - 1]);
        RunKeeps(c, t, m, es[..|es| - 1]);
        DrainIsUnsettled(c, before, e.limit, e.clock);
        DrainSplits(before.ctx, e.limit, e.clock);
        SameSize(before.ctx.queue, Taken(before.ctx, e.limit, e.clock), Drained(before.ctx, e.limit, e.clock).queue);
        LedgerMembers(before);
        assert WellMade(c, r);
      }
    }
  }

  // --- one drain ---

  /** The entries looked at are a prefix of all deliverable ones, cut off at the limit. */
  lemma {:induction false} ChosenPrefix(q: seq<Request>, d: seq<bool>, c: nat, e: nat)
    requires c <= e <= |q| == |d|
    ensures Chosen(q, d, c, true) <= Chosen(q, d, e, true)
    decreases e - c
  {
    if c < e {
      ChosenPrefix(q, d, c, e - 1);
    }
  }

  lemma {:induction false} CutKeepsLimit(q: seq<Request>, d: seq<bool>, c: nat, limit: nat)
    requires c <= |q| == |d| && |Chosen(q, d, c, true)| <= limit
    ensures |Chosen(q, d, Cut(q, d, c, limit), true)| <= limit
    decreases |q| - c
  {
    if c < |q| && |Chosen(q, d, c, true)| < limit {
      CutKeepsLimit(q, d, c + 1, limit);
    }
  }

  /** A drain returns the first `limit` deliverable entries in queue order and loses none. */
  lemma DrainTakesFirst(s: State, limit: nat, clock: nat -> Reading)
    ensures var all := Chosen(s.queue, Flags(s, clock), |s.queue|, true);
            Taken(s, limit, clock) == if |all| <= limit then all else all[..limit]
    ensures multiset(s.queue) == multiset(Taken(s, limit, clock)) + multiset(Drained(s, limit, clock).queue)
  {
    var d := Flags(s, clock);
    var c := Cut(s.queue, d, 0, limit);
    ChosenPrefix(s.queue, d, c, |s.queue|);
    CutKeepsLimit(s.queue, d, 0, limit);
    DrainSplits(s, limit, clock);
  }

  // --- suppression across interleavings ---

  ghost predicate NoTickStarts(es: seq<Step>) {
    forall i | 0 <= i < |es| :: !es[i].TickStarts?
  }

  lemma SuppressedStep(c: Config, t: Tree, m: Machine, e: Step)
    requires m.ctx.suppress && !e.TickStarts?
    ensures var n := Next(c, t, m, e);
            && n.ctx.suppress && m.queued <= n.queued
            && forall r | r in n.queued[|m.queued|..] :: r.kind !in {SubmitOperation, ResolveBranch, BeginWait}
  {
    hide Accepts, Remember, Pruned, Discarded, Taken, Flags, Cut, Chosen;
  }

  /** Until the next tick begins, a suppressed context queues no new work, whoever else acts. */
  lemma {:induction false} SuppressionLasts(c: Config, t: Tree, m: Machine, es: seq<Step>)
    requires m.ctx.suppress && NoTickStarts(es)
    ensures var n := Run(c, t, m, es);
            && n.ctx.suppress && m.queued <= n.queued
            && forall r | r in n.queued[|m.queued|..] :: r.kind !in {SubmitOperation, ResolveBranch, BeginWait}
    decreases |es|
  {
    if es != [] {
      SuppressionLasts(c, t, m, es[..|es| - 1]);
      var before, e := Run(c, t, m, es[..|es| - 1]), es[|es| - 1];
      var n := Run(c, t, m, es);
      SuppressedStep(c, t, before, e);
      assert n.queued[|m.queued|..] == before.queued[|m.queued|..] + n.queued[|before.queued|..];
    }
  }
}
