/** `Context` as the object the executor shares between its threads. */
module ContextObject {
  import opened Options
  import opened ExecutorTypes
  import opened Continuity
  import opened ContextState

  /** A call either throws or answers. */
  datatype Answer<+T> = Thrown | Answered(value: T)

  lemma Start<K, V>(m: map<K, V>, p: map<K, V>, todo: set<K>)
    ensures p.Keys <= todo ==> m + (p - todo) == m
    ensures m + (p - {}) == m + p
  {}

  /** A committed branch or wait comes with its decision. */
  ghost predicate Attributed(nodes: map<string, Observation>) {
    forall n | n in nodes :: nodes[n].branch.Some? || !nodes[n].wait.Waiting? ==> nodes[n].decisionId.Some?
  }

  lemma FitIsAttributed(defs: map<string, Definition>, m: Memory, nodes: map<string, Observation>)
    requires NodesFit(defs, m, nodes)
    ensures Attributed(nodes)
  {
    forall n | n in nodes
      ensures nodes[n].branch.Some? || !nodes[n].wait.Waiting? ==> nodes[n].decisionId.Some?
    {
      assert NodeFits(defs, m, n, nodes[n]);
    }
  }

  lemma OneMore<K, V>(m: map<K, V>, p: map<K, V>, todo: set<K>, n: K)
    requires n in todo
    ensures n in p ==> (m + (p - todo))[n := p[n]] == m + (p - (todo - {n}))
    ensures n !in p ==> m + (p - todo) == m + (p - (todo - {n}))
  {}

  lemma ProjectionKeys(nodes: map<string, Observation>)
    ensures var p := Projection(nodes);
            && p.operations.Keys <= nodes.Keys && p.outcomes.Keys <= nodes.Keys
            && p.decisions.Keys <= nodes.Keys && p.waits.Keys <= nodes.Keys
  {}

  /** What a frame says of one node, as the write loop records it. */
  lemma ProjectionAt(nodes: map<string, Observation>, n: string)
    requires Attributed(nodes) && n in nodes
    ensures var p, v := Projection(nodes), nodes[n];
            && (v.branch.Some? || !v.wait.Waiting? ==> v.decisionId.Some?)
            && (n in p.operations <==> v.operationId.Some?)
            && (n in p.outcomes <==> !v.outcome.NoOutcome?)
            && (n in p.decisions <==> v.branch.Some?)
            && (n in p.waits <==> !v.wait.Waiting?)
            && (n in p.operations ==> p.operations[n] == v.operationId.value)
            && (n in p.outcomes ==> p.outcomes[n] == v.outcome)
            && (n in p.decisions ==> p.decisions[n] == (v.decisionId.value, v.branch.value))
            && (n in p.waits ==> p.waits[n] == (v.decisionId.value, v.wait))
  {}

  /** Memory once every node but those in `todo` has been written. */
  ghost function Partial(m: Memory, nodes: map<string, Observation>, todo: set<string>): Memory {
    var p := Projection(nodes);
    Memory(m.operations + (p.operations - todo), m.outcomes + (p.outcomes - todo),
           m.decisions + (p.decisions - todo), m.waits + (p.waits - todo))
  }

  ghost function Written(m: Memory, n: string, v: Observation): Memory
    requires v.branch.Some? || !v.wait.Waiting? ==> v.decisionId.Some?
  {
    Memory(if v.operationId.Some? then m.operations[n := v.operationId.value] else m.operations,
           if !v.outcome.NoOutcome? then m.outcomes[n := v.outcome] else m.outcomes,
           if v.branch.Some? then m.decisions[n := (v.decisionId.value, v.branch.value)] else m.decisions,
           if !v.wait.Waiting? then m.waits[n := (v.decisionId.value, v.wait)] else m.waits)
  }

  lemma PartialEnds(m: Memory, nodes: map<string, Observation>)
    ensures Partial(m, nodes, nodes.Keys) == m
    ensures Partial(m, nodes, {}) == Remember(m, nodes)
  {
    hide Projection;
    var p := Projection(nodes);
    ProjectionKeys(nodes);
    Start(m.operations, p.operations, nodes.Keys);
    Start(m.outcomes, p.outcomes, nodes.Keys);
    Start(m.decisions, p.decisions, nodes.Keys);
    Start(m.waits, p.waits, nodes.Keys);
  }

  lemma PartialStep(m: Memory, nodes: map<string, Observation>, todo: set<string>, n: string)
    requires Attributed(nodes) && n in nodes && n in todo
    ensures nodes[n].branch.Some? || !nodes[n].wait.Waiting? ==> nodes[n].decisionId.Some?
    ensures Written(Partial(m, nodes, todo), n, nodes[n]) == Partial(m, nodes, todo - {n})
  {
    hide Projection, Attributed;
    var p := Projection(nodes);
    ProjectionAt(nodes, n);
    OneMore(m.operations, p.operations, todo, n);
    OneMore(m.outcomes, p.outcomes, todo, n);
    OneMore(m.decisions, p.decisions, todo, n);
    OneMore(m.waits, p.waits, todo, n);
  }

  lemma Rotation<T>(q: seq<T>, c: nat, skipped: seq<T>)
    requires c < |q|
    ensures (q[c..] + skipped)[0] == q[c]
    ensures (q[c..] + skipped)[1..] == q[c + 1..] + skipped
    ensures (q[c..] + skipped)[1..] + [q[c]] == q[c + 1..] + (skipped + [q[c]])
  {}

  /** Whether an entry may leave does not depend on the queue. */
  lemma SameVerdict(s: State, q: seq<Request>, clock: nat -> Reading, c: nat)
    requires c < |s.queue|
    ensures Deliverable(s.(queue := q), s.queue[c], clock(c)) == Flags(s, clock)[c]
  {}

  /** A drain of `q` after `c` looks: what it has taken, and the rotated rest. */
  ghost predicate Halfway(q: seq<Request>, d: seq<bool>, c: nat, limit: nat, taken: seq<Request>, rest: seq<Request>) {
    && c <= |q| == |d|
    && taken == Chosen(q, d, c, true) && rest == q[c..] + Chosen(q, d, c, false)
    && Cut(q, d, 0, limit) == Cut(q, d, c, limit)
  }

  lemma HalfwayStarts(q: seq<Request>, d: seq<bool>, limit: nat)
    requires |q| == |d|
    ensures Halfway(q, d, 0, limit, [], q)
  {
    assert q[0..] + [] == q;
  }

  lemma HalfwayLeft(q: seq<Request>, d: seq<bool>, c: nat, limit: nat, taken: seq<Request>, rest: seq<Request>)
    requires Halfway(q, d, c, limit, taken, rest)
    ensures rest == [] ==> c == |q|
  {}

  /** One more entry examined: it is taken, or goes to the back. */
  lemma HalfwayOn(q: seq<Request>, d: seq<bool>, c: nat, limit: nat, taken: seq<Request>, rest: seq<Request>)
    requires Halfway(q, d, c, limit, taken, rest) && c < |q| && |taken| < limit
    ensures |rest| > 0 && rest[0] == q[c]
    ensures d[c] ==> Halfway(q, d, c + 1, limit, taken + [rest[0]], rest[1..])
    ensures !d[c] ==> Halfway(q, d, c + 1, limit, taken, rest[1..] + [rest[0]])
  {
    Rotation(q, c, Chosen(q, d, c, false));
  }

  /** Where a drain stops is where it is cut. */
  lemma HalfwayEnds(s: State, clock: nat -> Reading, c: nat, limit: nat, taken: seq<Request>, rest: seq<Request>)
    requires Halfway(s.queue, Flags(s, clock), c, limit, taken, rest)
    requires c == |s.queue| || |taken| >= limit
    ensures taken == Taken(s, limit, clock) && s.(queue := rest) == Drained(s, limit, clock)
  {
    hide Flags;
  }

  class Context {
    const config: Config
    var operations: map<string, string>
    var outcomes: map<string, Outcome>
    var decisions: map<string, (string, bool)>
    var waits: map<string, (string, WaitState)>
    var incoming: Option<Stamped>
    var tick: Option<Stamped>
    var queue: seq<Request>
    var requested: set<Key>
    var halted: bool
    var suppress: bool
    var stamps: nat

    function Recall(): Memory
      reads this
    {
      Memory(operations, outcomes, decisions, waits)
    }

    function View(): State
      reads this
    {
      State(Recall(), incoming, tick, queue, requested, halted, suppress, stamps)
    }

    constructor (c: Config)
      requires ValidConfig(c)
      ensures config == c && View() == FRESH_STATE
    {
      config := c;
      operations, outcomes, decisions, waits := map[], map[], map[], map[];
      incoming, tick := None, None;
      queue, requested := [], {};
      halted, suppress, stamps := false, false, 0;
    }

    /** All nodes pass the per-node checks. */
    method CheckNodes(f: Frame) returns (ok: bool)
      ensures ok <==> NodesFit(config.definitions, Recall(), f.nodes)
    {
      var todo := f.nodes.Keys;
      while todo != {}
        invariant todo <= f.nodes.Keys
        invariant forall n | n in f.nodes && n !in todo :: NodeFits(config.definitions, Recall(), n, f.nodes[n])
      {
        var n :| n in todo;
        if !NodeFits(config.definitions, Recall(), n, f.nodes[n]) {
          return false;
        }
        todo := todo - {n};
      }
      return true;
    }

    /** A complete view keeps every committed binding. */
    method CheckKept(f: Frame) returns (ok: bool)
      ensures ok <==> Keeps(Recall(), f.nodes)
    {
      var m := Recall();
      var todo := operations.Keys;
      while todo != {}
        invariant todo <= operations.Keys
        invariant forall n | n in operations && n !in todo :: KeepsOperation(m, f.nodes, n)
      {
        var n :| n in todo;
        if !KeepsOperation(m, f.nodes, n) {
          return false;
        }
        todo := todo - {n};
      }
      todo := decisions.Keys;
      while todo != {}
        invariant todo <= decisions.Keys
        invariant forall n | n in decisions && n !in todo :: KeepsDecision(m, f.nodes, n)
      {
        var n :| n in todo;
        if !KeepsDecision(m, f.nodes, n) {
          return false;
        }
        todo := todo - {n};
      }
      todo := waits.Keys;
      while todo != {}
        invariant todo <= waits.Keys
        invariant forall n | n in waits && n !in todo :: KeepsWait(m, f.nodes, n)
      {
        var n :| n in todo;
        if !KeepsWait(m, f.nodes, n) {
          return false;
        }
        todo := todo - {n};
      }
      return true;
    }

    /** Continuity memory is written only after the whole frame has passed. */
    method Commit(f: Frame)
      requires Attributed(f.nodes)
      modifies `operations, `outcomes, `decisions, `waits
      ensures Recall() == Remember(old(Recall()), f.nodes)
    {
      hide Projection, Attributed, Partial;
      var todo := f.nodes.Keys;
      ghost var m := Recall();
      PartialEnds(m, f.nodes);
      while todo != {}
        invariant todo <= f.nodes.Keys
        invariant Recall() == Partial(m, f.nodes, todo)
      {
        var n :| n in todo;
        var v := f.nodes[n];
        PartialStep(m, f.nodes, todo, n);
        if v.operationId.Some? {
          operations := operations[n := v.operationId.value];
        }
        if !v.outcome.NoOutcome? {
          outcomes := outcomes[n := v.outcome];
        }
        if v.branch.Some? {
          decisions := decisions[n := (v.decisionId.value, v.branch.value)];
        }
        if !v.wait.Waiting? {
          waits := waits[n := (v.decisionId.value, v.wait)];
        }
        todo := todo - {n};
      }
    }

    method Prune(nodes: map<string, Observation>)
      modifies `queue
      ensures queue == Pruned(old(queue), nodes)
    {
      var kept := [];
      for i := 0 to |queue|
        invariant kept == Pruned(queue[..i], nodes)
      {
        assert queue[..i + 1][..i] == queue[..i];
        if !Resolves(nodes, queue[i]) {
          kept := kept + [queue[i]];
        }
      }
      assert queue[..|queue|] == queue;
      queue := kept;
    }

    method Latch()
      modifies `queue, `requested, `halted
      ensures View() == LatchPause(config, old(View()))
    {
      halted := true;
      var key := (config.root, PauseExecutor);
      if key !in requested {
        queue := [PauseRequest(config)] + queue;
        requested := requested + {key};
      }
    }

    method Install(f: Frame)
      requires NodesFit(config.definitions, Recall(), f.nodes)
      modifies `operations, `outcomes, `decisions, `waits, `queue, `incoming, `stamps
      ensures View() == Accept(old(View()), f)
    {
      hide NodesFit, Attributed, Remember, Pruned;
      FitIsAttributed(config.definitions, Recall(), f.nodes);
      Commit(f);
      if f.complete {
        Prune(f.nodes);
      }
      incoming, stamps := Some(Stamped(stamps, f)), stamps + 1;
    }

    /** A refused frame leaves the held view unusable and latches the pause. */
    method Refuse()
      modifies `queue, `requested, `halted, `incoming, `stamps
      ensures View() == Reject(config, old(View()))
    {
      if incoming.Some? {
        incoming := Some(Stamped(stamps, incoming.value.frame.(complete := false, current := false)));
        stamps := stamps + 1;
      }
      Latch();
    }

    /** `accepted` is false where the source rethrows. */
    method Publish(f: Frame, look: Reading) returns (accepted: bool)
      modifies this
      ensures accepted <==> Accepts(config, old(Recall()), FrameOf(old(incoming)), f, look)
      ensures View() == ContextState.Publish(config, old(View()), f, look)
    {
      accepted := SourceCurrent(f, look) && f.identity == config.identity &&
                  (incoming.Some? ==> incoming.value.frame.revision <= f.revision) &&
                  f.eligible <= config.definitions.Keys;
      if accepted {
        accepted := CheckNodes(f);
      }
      if accepted && f.complete {
        accepted := CheckKept(f);
      }
      if accepted {
        Install(f);
      } else {
        Refuse();
      }
    }

    method BeginTick()
      modifies `tick, `suppress
      ensures View() == ContextState.BeginTick(old(View()))
    {
      tick, suppress := incoming, false;
    }

    method SuppressNewForTick()
      modifies `suppress
      ensures View() == old(View()).(suppress := true)
    {
      suppress := true;
    }

    method Enqueue(node: string, kind: RequestKind, look: Reading) returns (r: Answer<bool>)
      modifies `queue, `requested
      ensures View() == ContextState.Enqueue(config, old(View()), node, kind, Usable(tick, look))
      ensures r.Thrown? <==> node !in config.definitions
      ensures r.Answered? && r.value ==> (node, kind) in requested
      ensures r.Answered? && !r.value ==> !Admits(old(View()), node, kind, Usable(tick, look)) || |queue| >= CAPACITY
    {
      if node !in config.definitions {
        return Thrown;
      }
      if suppress && StartsWork(kind) {
        return Answered(false);
      }
      if !Usable(tick, look) || !tick.value.frame.submissionAuthorized || node !in tick.value.frame.eligible {
        return Answered(false);
      }
      if halted || incoming.None? || incoming.value.stamp != tick.value.stamp ||
         !incoming.value.frame.current || !incoming.value.frame.submissionAuthorized {
        return Answered(false);
      }
      if (node, kind) in requested {
        return Answered(true);
      }
      if |queue| >= CAPACITY {
        return Answered(false);
      }
      queue := queue + [NewRequest(config, node, kind)];
      requested := requested + {(node, kind)};
      return Answered(true);
    }

    method Pause(node: string) returns (r: Answer<()>)
      modifies `queue, `requested, `halted
      ensures r.Thrown? <==> node !in config.definitions
      ensures View() == if r.Thrown? then old(View()) else LatchPause(config, old(View()))
    {
      if node !in config.definitions {
        return Thrown;
      }
      Latch();
      return Answered(());
    }

    /** Rotates the queue in place; the k-th entry is examined at look k. */
    method TakeRequests(limit: nat, clock: nat -> Reading) returns (r: Answer<seq<Request>>)
      modifies `queue
      ensures r.Thrown? <==> limit == 0 || limit > CAPACITY
      ensures r.Thrown? ==> View() == old(View())
      ensures r.Answered? ==>
                r.value == Taken(old(View()), limit, clock) && View() == Drained(old(View()), limit, clock)
    {
      if limit == 0 || limit > CAPACITY {
        return Thrown;
      }
      hide Deliverable, Flags, Halfway, Taken, Drained;
      var result: seq<Request> := [];
      var remaining := |queue|;
      var c := 0;
      ghost var s, d := View(), Flags(View(), clock);
      HalfwayStarts(s.queue, d, limit);
      while queue != [] && |result| < limit && remaining > 0
        invariant 0 <= c <= |s.queue| && remaining == |s.queue| - c
        invariant Halfway(s.queue, d, c, limit, result, queue)
        decreases remaining
      {
        var look := clock(c);
        var request := queue[0];
        HalfwayOn(s.queue, d, c, limit, result, queue);
        queue := queue[1..];
        SameVerdict(s, queue, clock, c);
        remaining := remaining - 1;
        if Deliverable(View(), request, look) {
          result := result + [request];
        } else {
          queue := queue + [request];
        }
        c := c + 1;
      }
      HalfwayLeft(s.queue, d, c, limit, result, queue);
      HalfwayEnds(s, clock, c, limit, result, queue);
      return Answered(result);
    }
  }
}
