/** What the actions of a tick do to the context. */
module TickEffects {
  import opened Options
  import opened ExecutorTypes
  import opened Continuity
  import opened ContextState
  import opened BehaviorTree
  import opened TickLaws
  import opened TickOrder

  function NodesOf(tick: Option<Stamped>): Nodes {
    if tick.Some? then tick.value.frame.nodes else map[]
  }

  /** Which looks find a frame usable. */
  function LooksAt(f: Option<Frame>, clock: nat -> Reading): Clock {
    (k: nat) => f.Some? && f.value.complete && f.value.current && Fresh(f.value, clock(k))
  }

  /** The looks a tick makes at its own frame. */
  function UsableBy(tick: Option<Stamped>, clock: nat -> Reading): Clock {
    LooksAt(FrameOf(tick), clock)
  }

  function Act(c: Config, s: State, a: Action): State {
    match a
    case Suppress => s.(suppress := true)
    case Propose(node, kind, timely) => Enqueue(c, s, node, kind, timely)
  }

  function Perform(c: Config, s: State, acts: seq<Action>): State {
    if acts == [] then s else Act(c, Perform(c, s, acts[..|acts| - 1]), acts[|acts| - 1])
  }

  lemma {:induction false} PerformConcat(c: Config, s: State, a: seq<Action>, b: seq<Action>)
    ensures Perform(c, s, a + b) == Perform(c, Perform(c, s, a), b)
    decreases |b|
  {
    if b == [] {
      assert a + b == a;
    } else {
      var ab, last := a + b, b[|b| - 1];
      assert ab[|ab| - 1] == last && ab[..|ab| - 1] == a + b[..|b| - 1];
      PerformConcat(c, s, a, b[..|b| - 1]);
    }
  }

  /** From `s` to `s'` no request that starts work was added. */
  ghost predicate NoNewWork(s: State, s': State) {
    && s.queue <= s'.queue
    && forall r | r in s'.queue[|s.queue|..] :: r.kind !in {SubmitOperation, ResolveBranch, BeginWait}
  }

  /** Under suppression no action adds work, and the flag stays. */
  lemma {:induction false} SuppressedAddsNoWork(c: Config, s: State, acts: seq<Action>)
    requires s.suppress
    ensures Perform(c, s, acts).suppress && NoNewWork(s, Perform(c, s, acts))
    decreases |acts|
  {
    if acts != [] {
      SuppressedAddsNoWork(c, s, acts[..|acts| - 1]);
    }
  }

  /** A problem in a parallel node's active subtree stops new work there and
      in whatever is ticked after it in the same tick. */
  lemma {:induction false} ProblemStopsNewWork(c: Config, s: State, t: Tree, nodes: Nodes, u: Clock, at: nat,
                                               later: seq<Action>)
    requires t.kind.ParallelAll? && t.children != [] && u(at)
    requires Somewhere(Problem, t, nodes)
    ensures NoNewWork(s, Perform(c, s, Tick(t, nodes, u, at).acts + later))
    ensures !BeginTick(Perform(c, s, Tick(t, nodes, u, at).acts + later)).suppress
  {
    ProblemSuppressesFirst(t, nodes, u, at);
    var acts := Tick(t, nodes, u, at).acts + later;
    assert acts == [Suppress] + acts[1..];
    PerformConcat(c, s, [Suppress], acts[1..]);
    assert [Suppress][..0] == [];
    assert Perform(c, s, [Suppress]) == s.(suppress := true);
    SuppressedAddsNoWork(c, s.(suppress := true), acts[1..]);
  }

  /** A serial tree adds at most one request per tick. */
  lemma SerialAddsAtMostOne(c: Config, s: State, t: Tree, nodes: Nodes, u: Clock, at: nat)
    requires Serial(t)
    ensures var s' := Perform(c, s, Tick(t, nodes, u, at).acts);
            s.queue <= s'.queue && |s'.queue| <= |s.queue| + 1
  {
    SerialAsksOnce(t, nodes, u, at);
    var acts := Tick(t, nodes, u, at).acts;
    if acts != [] {
      assert acts == [acts[0]] && acts[..0] == [];
      assert Perform(c, s, acts) == Act(c, s, acts[0]);
    }
  }
}
