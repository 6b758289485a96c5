/** What FAILURE, FAULT and RUNNING of a tick tell about the frame, and what a parallel node's searches
    look for, in terms of what the frame shows. */
module TickFailures {
  import opened Options
  import opened ExecutorTypes
  import opened BehaviorTree
  import opened TickLaws
  import opened TickOutcomes
  import opened TickOrder

  /** The frame shows the leaf's work over and lost: an operation that ended without succeeding,
      or a wait that ran out. */
  predicate Broken(x: Tree, nodes: Nodes) {
    var v := Shown(nodes, x.id);
    && Clear(v)
    && ((x.kind.Operation? && v.operationId.Some? && v.outcome in {Failed, Canceled, NotExecuted})
        || (x.kind.Wait? && v.wait.TimedOut?))
  }

  /** The control node cannot be ticked: it has no child to go to. */
  predicate Barren(x: Tree, nodes: Nodes) {
    var v := Shown(nodes, x.id);
    match x.kind
    case Sequence | ParallelAll => x.children == []
    case Branch => Clear(v) && v.branch.Some? && |x.children| != 2
    case _ => false
  }

  // --- leaves ---

  /** A leaf succeeds, fails or runs exactly as the frame shows it done, broken or neither. */
  lemma LeafStatus(t: Tree, nodes: Nodes)
    requires IsLeaf(t.kind)
    ensures Eval(t, nodes).Success? <==> Done(t, nodes)
    ensures Eval(t, nodes).Failure? <==> Broken(t, nodes)
    ensures Eval(t, nodes).Running? <==> !Done(t, nodes) && !Broken(t, nodes)
  {}

  /** And so does its tick, on a view that stays usable. */
  lemma LeafTicks(t: Tree, nodes: Nodes, u: Clock, at: nat)
    requires IsLeaf(t.kind) && Good(u, at, Tick(t, nodes, u, at).at)
    ensures Tick(t, nodes, u, at).status ==
            if Done(t, nodes) then Success else if Broken(t, nodes) then Failure else Running
  {
    TickIsEval(t, nodes, u, at);
    LeafStatus(t, nodes);
  }

  // --- branches ---

  /** A decided branch is its first child when the decision is true and its second when it is false. */
  lemma BranchSides(t: Tree, nodes: Nodes, side: bool)
    requires t.kind.Branch? && |t.children| == 2 && Shown(nodes, t.id).branch == Some(side)
    ensures var chosen := t.children[if side then 0 else 1];
            && (Clear(Shown(nodes, t.id)) ==> Eval(t, nodes) == Eval(chosen, nodes))
            && forall x :: Active(x, t, nodes) <==> x == t || Active(x, chosen, nodes)
  {
    var k := if side then 0 else 1;
    assert forall i :: Open(t, nodes, i) <==> i == k;
    forall x ensures Active(x, t, nodes) <==> x == t || Active(x, t.children[k], nodes) {
      assert Open(t, nodes, k);
    }
  }

  /** The tick of a decided branch is the tick of that child, two looks later. */
  lemma BranchTicks(t: Tree, nodes: Nodes, u: Clock, at: nat, side: bool)
    requires t.kind.Branch? && |t.children| == 2 && Shown(nodes, t.id).branch == Some(side)
    requires Clear(Shown(nodes, t.id)) && u(at) && u(at + 1)
    ensures Tick(t, nodes, u, at) == Tick(t.children[if side then 0 else 1], nodes, u, at + 2)
  {}

  // --- FAULT ---

  ghost predicate ReachesBarren(t: Tree, nodes: Nodes) {
    exists x :: Reached(x, t, nodes) && Barren(x, nodes)
  }

  ghost predicate ReachesBroken(t: Tree, nodes: Nodes) {
    exists x :: Reached(x, t, nodes) && Broken(x, nodes)
  }

  /** A sequence comes out as its first child that does not succeed. */
  lemma {:induction false} SequenceDecidedBy(t: Tree, i: nat, nodes: Nodes) returns (k: nat)
    requires i <= |t.children|
    ensures i <= k <= |t.children| && forall j | i <= j < k :: Eval(t.children[j], nodes).Success?
    ensures k < |t.children| ==>
              !Eval(t.children[k], nodes).Success? && EvalSequence(t, i, nodes) == Eval(t.children[k], nodes)
    ensures k == |t.children| ==> EvalSequence(t, i, nodes).Success?
    decreases |t.children| - i
  {
    k := i;
    if i < |t.children| && Eval(t.children[i], nodes).Success? {
      k := SequenceDecidedBy(t, i + 1, nodes);
    }
  }

  /** FAULT exactly when the tick gets to a control node it cannot tick. */
  lemma {:induction false} FaultIff(t: Tree, nodes: Nodes)
    ensures Eval(t, nodes).Fault? <==> ReachesBarren(t, nodes)
    decreases t
  {
    if Eval(t, nodes).Fault? {
      FaultReaches(t, nodes);
    }
    forall x | Reached(x, t, nodes) && Barren(x, nodes) ensures Eval(t, nodes).Fault? {
      BarrenFaults(x, t, nodes);
    }
  }

  lemma {:induction false} FaultReaches(t: Tree, nodes: Nodes)
    requires Eval(t, nodes).Fault?
    ensures ReachesBarren(t, nodes)
    decreases t
  {
    assert Reached(t, t, nodes);
    if !Barren(t, nodes) {
      var i;
      match t.kind {
        case Sequence => i := SequenceDecidedBy(t, 0, nodes);
        case ParallelAll => i :| 0 <= i < |t.children| && Eval(t.children[i], nodes).Fault?;
        case Branch => i := Lo(t, Shown(nodes, t.id));
      }
      FaultReaches(t.children[i], nodes);
      ThroughChild(t, i, nodes);
    }
  }

  /** What a child the tick enters reaches, the node reaches. */
  lemma ThroughChild(t: Tree, i: int, nodes: Nodes)
    requires Enters(t, nodes, i)
    ensures ReachesBarren(t.children[i], nodes) ==> ReachesBarren(t, nodes)
    ensures ReachesBroken(t.children[i], nodes) ==> ReachesBroken(t, nodes)
  {
    forall x | Reached(x, t.children[i], nodes) ensures Reached(x, t, nodes) {}
  }

  lemma {:induction false} BarrenFaults(x: Tree, t: Tree, nodes: Nodes)
    requires Reached(x, t, nodes) && Barren(x, nodes)
    ensures Eval(t, nodes).Fault?
    decreases t
  {
    if x != t {
      var i :| Enters(t, nodes, i) && Reached(x, t.children[i], nodes);
      BarrenFaults(x, t.children[i], nodes);
      match t.kind {
        case Sequence => EvalSequenceStopsAt(t, 0, i, nodes);
        case ParallelAll => assert SomeChild(t, nodes, Eval(t.children[i], nodes));
        case Branch => assert i == Lo(t, Shown(nodes, t.id));
      }
    }
  }

  // --- FAILURE ---

  /** Nothing fails but over a broken leaf its tick has reached. */
  lemma {:induction false} FailureHasBrokenLeaf(t: Tree, nodes: Nodes)
    requires Eval(t, nodes).Failure?
    ensures ReachesBroken(t, nodes)
    decreases t
  {
    assert Reached(t, t, nodes);
    if !IsLeaf(t.kind) {
      var i;
      match t.kind {
        case Sequence => i := SequenceDecidedBy(t, 0, nodes);
        case ParallelAll => i :| 0 <= i < |t.children| && Eval(t.children[i], nodes).Failure?;
        case Branch => i := Lo(t, Shown(nodes, t.id));
      }
      FailureHasBrokenLeaf(t.children[i], nodes);
      ThroughChild(t, i, nodes);
    }
  }

  lemma {:induction false} BrokenLeafFails(x: Tree, t: Tree, nodes: Nodes)
    requires Serial(t) && Reached(x, t, nodes) && Broken(x, nodes)
    ensures Eval(t, nodes).Failure?
    decreases t
  {
    if x != t {
      var i :| Enters(t, nodes, i) && Reached(x, t.children[i], nodes);
      BrokenLeafFails(x, t.children[i], nodes);
      match t.kind {
        case Sequence => EvalSequenceStopsAt(t, 0, i, nodes);
        case Branch => assert i == Lo(t, Shown(nodes, t.id));
      }
    }
  }

  /** A tree without parallel nodes fails exactly when its tick gets to a broken leaf. */
  lemma {:induction false} SerialFailsIff(t: Tree, nodes: Nodes)
    requires Serial(t)
    ensures Eval(t, nodes).Failure? <==> ReachesBroken(t, nodes)
  {
    if Eval(t, nodes).Failure? {
      FailureHasBrokenLeaf(t, nodes);
    }
    forall x | Reached(x, t, nodes) && Broken(x, nodes) ensures Eval(t, nodes).Failure? {
      BrokenLeafFails(x, t, nodes);
    }
  }

  /** A parallel node over such trees fails exactly when a child's tick gets to a broken leaf, no child's to a
      barren node, nothing active obstructs, and no operation is live or every child has ended. */
  lemma {:induction false} ParallelFailsIff(t: Tree, nodes: Nodes)
    requires t.kind.ParallelAll? && forall i | 0 <= i < |t.children| :: Serial(t.children[i])
    ensures Eval(t, nodes).Failure? <==>
            && (exists i | 0 <= i < |t.children| :: ReachesBroken(t.children[i], nodes))
            && (forall i | 0 <= i < |t.children| :: !ReachesBarren(t.children[i], nodes))
            && (forall x | Active(x, t, nodes) :: !Obstructs(x, nodes))
            && ((forall x | Active(x, t, nodes) :: !AtWork(x, nodes)) ||
                (forall i | 0 <= i < |t.children| :: AllDoneOrBroken(t.children[i], nodes)))
  {
    hide Eval, ReachesBroken, ReachesBarren, Obstructs, AtWork;
    forall i | 0 <= i < |t.children|
      ensures Eval(t.children[i], nodes).Failure? <==> ReachesBroken(t.children[i], nodes)
      ensures Eval(t.children[i], nodes).Fault? <==> ReachesBarren(t.children[i], nodes)
    {
      SerialFailsIff(t.children[i], nodes);
      FaultIff(t.children[i], nodes);
    }
    NestedFailsIff(t, nodes);
    if exists i | 0 <= i < |t.children| :: ReachesBroken(t.children[i], nodes) {
      var i :| 0 <= i < |t.children| && ReachesBroken(t.children[i], nodes);
      assert Eval(t.children[i], nodes).Failure?;
    }
  }

  /** The same by the statuses of the children, whatever trees they are. */
  lemma NestedFailsIff(t: Tree, nodes: Nodes)
    requires t.kind.ParallelAll?
    ensures Eval(t, nodes).Failure? <==>
            && (exists i | 0 <= i < |t.children| :: Eval(t.children[i], nodes).Failure?)
            && (forall i | 0 <= i < |t.children| :: !Eval(t.children[i], nodes).Fault?)
            && (forall x | Active(x, t, nodes) :: !Obstructs(x, nodes))
            && ((forall x | Active(x, t, nodes) :: !AtWork(x, nodes)) ||
                (forall i | 0 <= i < |t.children| :: !Eval(t.children[i], nodes).Running?))
  {
    hide Somewhere, Obstructs, AtWork;
    SearchesMean(t, nodes);
  }

  /** The child's tick has come to an end, one way or the other. */
  ghost predicate AllDoneOrBroken(t: Tree, nodes: Nodes) {
    Eval(t, nodes).Success? || ReachesBroken(t, nodes) || ReachesBarren(t, nodes)
  }

  // --- what the searches look for ---

  /** What the frame shows of the node keeps a parallel node from ending. */
  predicate Obstructs(x: Tree, nodes: Nodes) {
    var v := Shown(nodes, x.id);
    v.unknown || !v.integrityValid || v.outcome.Unresolved? || (x.kind.Intervention? && v.clearance.None?)
  }

  predicate AtWork(x: Tree, nodes: Nodes) {
    Shown(nodes, x.id).operationId.Some? && Shown(nodes, x.id).outcome.NoOutcome?
  }

  /** What the frame shows of the node keeps a parallel node from starting more work: anything that obstructs,
      any operation that ended without succeeding, any wait that ran out. */
  predicate Troubled(x: Tree, nodes: Nodes) {
    var v := Shown(nodes, x.id);
    || Obstructs(x, nodes)
    || v.outcome in {Failed, Canceled, NotExecuted}
    || (x.kind.Wait? && v.wait.TimedOut?)
  }

  lemma SearchesMean(t: Tree, nodes: Nodes)
    ensures Somewhere(Blocker, t, nodes) <==> exists x :: Active(x, t, nodes) && Obstructs(x, nodes)
    ensures Somewhere(LiveWork, t, nodes) <==> exists x :: Active(x, t, nodes) && AtWork(x, nodes)
    ensures Somewhere(Problem, t, nodes) <==> exists x :: Active(x, t, nodes) && Troubled(x, nodes)
  {
    forall x | Active(x, t, nodes)
      ensures Hit(Blocker, x.kind, Shown(nodes, x.id)) <==> Obstructs(x, nodes)
      ensures Hit(LiveWork, x.kind, Shown(nodes, x.id)) <==> AtWork(x, nodes)
      ensures Hit(Problem, x.kind, Shown(nodes, x.id)) <==> Troubled(x, nodes)
    {}
  }

  /** A tick that suppresses nothing has met no trouble, and one that meets none suppresses nothing. */
  lemma {:induction false} SuppressesIff(t: Tree, nodes: Nodes, u: Clock, at: nat)
    requires t.kind.ParallelAll? && t.children != [] && Good(u, at, Tick(t, nodes, u, at).at)
    ensures Suppress in Tick(t, nodes, u, at).acts <==> exists x :: Active(x, t, nodes) && Troubled(x, nodes)
  {
    SearchesMean(t, nodes);
    if Somewhere(Problem, t, nodes) {
      SearchPrecedes(t, nodes, u, at);
      ProblemSuppressesFirst(t, nodes, u, at);
    } else {
      CalmTick(t, nodes, u, at);
    }
  }

  /** The first look of a parallel node is usable if all are. */
  lemma SearchPrecedes(t: Tree, nodes: Nodes, u: Clock, at: nat)
    requires t.kind.ParallelAll? && Good(u, at, Tick(t, nodes, u, at).at)
    ensures u(at)
  {
    assert Tick(t, nodes, u, at).at > at;
  }

  lemma {:induction false} CalmTick(t: Tree, nodes: Nodes, u: Clock, at: nat)
    requires !Somewhere(Problem, t, nodes) && Good(u, at, Tick(t, nodes, u, at).at)
    ensures Suppress !in Tick(t, nodes, u, at).acts
    decreases t, |t.children| + 1
  {
    hide Somewhere;
    SomewhereStep(Problem, t, nodes);
    match t.kind {
      case Operation | Wait | Intervention =>
      case Branch =>
        var v := Shown(nodes, t.id);
        if u(at) && u(at + 1) && Clear(v) && v.branch.Some? && |t.children| == 2 {
          assert Open(t, nodes, Lo(t, v));
          CalmTick(t.children[Lo(t, v)], nodes, u, at + 2);
        }
      case Sequence => if u(at) && t.children != [] { CalmSequence(t, 0, nodes, u, at + 1); }
      case ParallelAll => if u(at) && t.children != [] { CalmParallel(t, nodes, u, at); }
    }
  }

  lemma {:induction false} CalmParallel(t: Tree, nodes: Nodes, u: Clock, at: nat)
    requires t.kind.ParallelAll? && t.children != [] && u(at)
    requires !Somewhere(Problem, t, nodes) && Good(u, at, Tick(t, nodes, u, at).at)
    ensures Suppress !in Tick(t, nodes, u, at).acts
    decreases t, |t.children| + 1, 0
  {
    hide Somewhere, Search, TickAll;
    var (problem, a) := Search(Problem, t, nodes, u, at + 1);
    var all := TickAll(t, 0, nodes, u, a, false, false);
    assert a <= all.at <= Tick(t, nodes, u, at).at;
    SearchExact(Problem, t, nodes, u, at + 1);
    CalmAll(t, 0, nodes, u, a, false, false);
  }

  lemma {:induction false} CalmSequence(t: Tree, i: nat, nodes: Nodes, u: Clock, at: nat)
    requires i <= |t.children| && t.kind.Sequence? && !Somewhere(Problem, t, nodes)
    requires Good(u, at, TickSequence(t, i, nodes, u, at).at)
    ensures Suppress !in TickSequence(t, i, nodes, u, at).acts
    decreases t, |t.children| - i
  {
    hide Somewhere;
    if i < |t.children| {
      SomewhereStep(Problem, t, nodes);
      assert Open(t, nodes, i);
      var o := Tick(t.children[i], nodes, u, at);
      CalmTick(t.children[i], nodes, u, at);
      if o.status.Success? {
        CalmSequence(t, i + 1, nodes, u, o.at);
      }
    }
  }

  lemma {:induction false} CalmAll(t: Tree, i: nat, nodes: Nodes, u: Clock, at: nat, running: bool, failed: bool)
    requires i <= |t.children| && t.kind.ParallelAll? && !Somewhere(Problem, t, nodes)
    requires Good(u, at, TickAll(t, i, nodes, u, at, running, failed).at)
    ensures Suppress !in TickAll(t, i, nodes, u, at, running, failed).acts
    decreases t, |t.children| - i
  {
    hide Somewhere;
    if i < |t.children| {
      SomewhereStep(Problem, t, nodes);
      assert Open(t, nodes, i);
      var o := Tick(t.children[i], nodes, u, at);
      CalmTick(t.children[i], nodes, u, at);
      if !o.status.Fault? {
        CalmAll(t, i + 1, nodes, u, o.at, running || o.status.Running?, failed || o.status.Failure?);
      }
    }
  }

  // --- nodes the frame does not mention ---

  function FirstRequest(k: Kind): RequestKind
    requires k.Operation? || k.Wait? || k.Intervention? || k.Branch?
  {
    match k
    case Operation => SubmitOperation
    case Wait => BeginWait
    case Intervention => RequestIntervention
    case Branch => ResolveBranch
  }

  /** A reached node the frame says nothing about is asked for as one that has not begun. */
  lemma UnmentionedIsAsked(x: Tree, t: Tree, nodes: Nodes, u: Clock, at: nat)
    requires Reached(x, t, nodes) && x.id !in nodes && (IsLeaf(x.kind) || x.kind.Branch?)
    requires Good(u, at, Tick(t, nodes, u, at).at) && !Eval(t, nodes).Fault?
    ensures Propose(x.id, FirstRequest(x.kind), true) in Tick(t, nodes, u, at).acts
  {
    DueIsProposed(x, t, nodes, FirstRequest(x.kind), u, at);
  }
}
