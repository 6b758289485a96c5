/** Which requests a tick proposes, and in what order of work. */
module TickOrder {
  import opened Options
  import opened ExecutorTypes
  import opened BehaviorTree
  import opened TickLaws
  import opened TickOutcomes

  /** The frame shows node `x` clear and still in need of `k`. */
  predicate Wants(x: Tree, nodes: Nodes, k: RequestKind) {
    var v := Shown(nodes, x.id);
    && Clear(v)
    && match k
       case SubmitOperation => x.kind.Operation? && v.operationId.None?
       case RequestHandover => x.kind.Operation? && v.operationId.Some? && v.outcome.Succeeded? && !v.released
       case ResolveBranch => x.kind.Branch? && v.branch.None?
       case BeginWait => x.kind.Wait? && v.wait.Waiting?
       case RequestIntervention => x.kind.Intervention? && v.clearance.None?
       case PauseExecutor => false
  }

  /** Some reached node of `t` with this id wants this request. */
  ghost predicate Due(t: Tree, nodes: Nodes, id: string, k: RequestKind) {
    exists x :: Reached(x, t, nodes) && x.id == id && Wants(x, nodes, k)
  }

  ghost predicate OnlyDue(acts: seq<Action>, t: Tree, nodes: Nodes) {
    forall a | a in acts && a.Propose? :: Due(t, nodes, a.node, a.kind)
  }

  lemma DueThroughChild(t: Tree, i: int, nodes: Nodes, id: string, k: RequestKind)
    requires Enters(t, nodes, i) && Due(t.children[i], nodes, id, k)
    ensures Due(t, nodes, id, k)
  {
    var x :| Reached(x, t.children[i], nodes) && x.id == id && Wants(x, nodes, k);
    assert Reached(x, t, nodes);
  }

  lemma OnlyDueThroughChild(acts: seq<Action>, t: Tree, i: int, nodes: Nodes)
    requires Enters(t, nodes, i) && OnlyDue(acts, t.children[i], nodes)
    ensures OnlyDue(acts, t, nodes)
  {
    forall a | a in acts && a.Propose? ensures Due(t, nodes, a.node, a.kind) {
      DueThroughChild(t, i, nodes, a.node, a.kind);
    }
  }

  /** Order safety: whatever the clock does, every proposal is for a reached node that wants it. */
  lemma {:induction false} ProposalsAreDue(t: Tree, nodes: Nodes, u: Clock, at: nat)
    ensures OnlyDue(Tick(t, nodes, u, at).acts, t, nodes)
    decreases t, |t.children| + 1
  {
    var o := Tick(t, nodes, u, at);
    match t.kind {
      case Operation | Wait | Intervention =>
        assert Reached(t, t, nodes);
      case Branch =>
        assert Reached(t, t, nodes);
        var v := Seen(nodes, t.id, u(at + 1));
        if u(at) && Clear(v) && v.branch.Some? && |t.children| == 2 {
          assert v == Shown(nodes, t.id);
          ProposalsAreDue(t.children[Lo(t, v)], nodes, u, at + 2);
          assert Enters(t, nodes, Lo(t, v));
          OnlyDueThroughChild(o.acts, t, Lo(t, v), nodes);
        }
      case Sequence =>
        if u(at) && t.children != [] {
          SequenceProposalsAreDue(t, 0, nodes, u, at + 1);
        }
      case ParallelAll =>
        if u(at) && t.children != [] {
          var a := Search(Problem, t, nodes, u, at + 1).1;
          AllProposalsAreDue(t, 0, nodes, u, a, false, false);
        }
    }
  }

  lemma {:induction false} SequenceProposalsAreDue(t: Tree, i: nat, nodes: Nodes, u: Clock, at: nat)
    requires i <= |t.children| && t.kind.Sequence?
    requires forall j | 0 <= j < i :: Eval(t.children[j], nodes).Success?
    ensures OnlyDue(TickSequence(t, i, nodes, u, at).acts, t, nodes)
    decreases t, |t.children| - i
  {
    if i < |t.children| {
      ProposalsAreDue(t.children[i], nodes, u, at);
      var o := Tick(t.children[i], nodes, u, at);
      OnlyDueThroughChild(o.acts, t, i, nodes);
      if o.status.Success? {
        SuccessWhateverTheClock(t.children[i], nodes, u, at);
        SequenceProposalsAreDue(t, i + 1, nodes, u, o.at);
      }
    }
  }

  lemma {:induction false} AllProposalsAreDue(
      t: Tree, i: nat, nodes: Nodes, u: Clock, at: nat, running: bool, failed: bool)
    requires i <= |t.children| && t.kind.ParallelAll?
    ensures OnlyDue(TickAll(t, i, nodes, u, at, running, failed).acts, t, nodes)
    decreases t, |t.children| - i
  {
    if i < |t.children| {
      ProposalsAreDue(t.children[i], nodes, u, at);
      var o := Tick(t.children[i], nodes, u, at);
      OnlyDueThroughChild(o.acts, t, i, nodes);
      if !o.status.Fault? {
        AllProposalsAreDue(t, i + 1, nodes, u, o.at, running || o.status.Running?, failed || o.status.Failure?);
      }
    }
  }

  /** Nothing due is skipped: with a usable view every wanting node the tick reaches is proposed. */
  lemma {:induction false} DueIsProposed(x: Tree, t: Tree, nodes: Nodes, k: RequestKind, u: Clock, at: nat)
    requires Reached(x, t, nodes) && Wants(x, nodes, k)
    requires Good(u, at, Tick(t, nodes, u, at).at) && !Eval(t, nodes).Fault?
    ensures Propose(x.id, k, true) in Tick(t, nodes, u, at).acts
    decreases t, |t.children| + 1
  {
    hide Search, Somewhere, Wants, TickSequence, TickAll, EvalSequence;
    if x == t {
      SelfProposed(t, nodes, k, u, at);
    } else {
      var i :| Enters(t, nodes, i) && Reached(x, t.children[i], nodes);
      TickIsEval(t, nodes, u, at);
      match t.kind {
        case Branch =>
          assert i == Lo(t, Shown(nodes, t.id));
          assert u(at) && u(at + 1);
          DueIsProposed(x, t.children[i], nodes, k, u, at + 2);
        case Sequence =>
          DueInSequence(x, t, 0, i, nodes, k, u, at + 1);
        case ParallelAll =>
          assert u(at);
          var a := Search(Problem, t, nodes, u, at + 1).1;
          DueInAll(x, t, 0, i, nodes, k, u, a, false, false);
      }
    }
  }

  lemma SelfProposed(t: Tree, nodes: Nodes, k: RequestKind, u: Clock, at: nat)
    requires Wants(t, nodes, k) && Good(u, at, Tick(t, nodes, u, at).at)
    ensures Propose(t.id, k, true) in Tick(t, nodes, u, at).acts
  {
    assert u(at);
    assert u(at + 1);
    assert u(at + 2);
  }

  lemma {:induction false} DueInSequence(
      x: Tree, t: Tree, i: nat, j: nat, nodes: Nodes, k: RequestKind, u: Clock, at: nat)
    requires i <= j < |t.children| && t.kind.Sequence? && Enters(t, nodes, j)
    requires Reached(x, t.children[j], nodes) && Wants(x, nodes, k)
    requires Good(u, at, TickSequence(t, i, nodes, u, at).at)
    requires !TickSequence(t, i, nodes, u, at).status.Fault?
    ensures Propose(x.id, k, true) in TickSequence(t, i, nodes, u, at).acts
    decreases t, |t.children| - i
  {
    TickIsEval(t.children[i], nodes, u, at);
    if i < j {
      DueInSequence(x, t, i + 1, j, nodes, k, u, Tick(t.children[i], nodes, u, at).at);
    } else {
      DueIsProposed(x, t.children[i], nodes, k, u, at);
    }
  }

  lemma {:induction false} DueInAll(
      x: Tree, t: Tree, i: nat, j: nat, nodes: Nodes, k: RequestKind, u: Clock, at: nat, running: bool, failed: bool)
    requires i <= j < |t.children|
    requires Reached(x, t.children[j], nodes) && Wants(x, nodes, k)
    requires Good(u, at, TickAll(t, i, nodes, u, at, running, failed).at)
    requires !TickAll(t, i, nodes, u, at, running, failed).fault
    ensures Propose(x.id, k, true) in TickAll(t, i, nodes, u, at, running, failed).acts
    decreases t, |t.children| - i
  {
    TickIsEval(t.children[i], nodes, u, at);
    var o := Tick(t.children[i], nodes, u, at);
    if i < j {
      DueInAll(x, t, i + 1, j, nodes, k, u, o.at, running || o.status.Running?, failed || o.status.Failure?);
    } else {
      DueIsProposed(x, t.children[i], nodes, k, u, at);
    }
  }

  // --- trees without parallel nodes ---

  predicate Serial(t: Tree) {
    !t.kind.ParallelAll? && forall i | 0 <= i < |t.children| :: Serial(t.children[i])
  }

  /** A serial tree asks for at most one thing per tick, and only while it is running. */
  lemma {:induction false} SerialAsksOnce(t: Tree, nodes: Nodes, u: Clock, at: nat)
    requires Serial(t)
    ensures |Tick(t, nodes, u, at).acts| <= 1
    ensures !Tick(t, nodes, u, at).status.Running? ==> Tick(t, nodes, u, at).acts == []
    decreases t, |t.children| + 1
  {
    match t.kind {
      case Operation | Wait | Intervention =>
      case Branch =>
        var v := Seen(nodes, t.id, u(at + 1));
        if u(at) && Clear(v) && v.branch.Some? && |t.children| == 2 {
          SerialAsksOnce(t.children[Lo(t, v)], nodes, u, at + 2);
        }
      case Sequence =>
        SerialSequenceAsksOnce(t, 0, nodes, u, at + 1);
    }
  }

  lemma {:induction false} SerialSequenceAsksOnce(t: Tree, i: nat, nodes: Nodes, u: Clock, at: nat)
    requires Serial(t) && i <= |t.children|
    ensures |TickSequence(t, i, nodes, u, at).acts| <= 1
    ensures !TickSequence(t, i, nodes, u, at).status.Running? ==> TickSequence(t, i, nodes, u, at).acts == []
    decreases t, |t.children| - i
  {
    if i < |t.children| {
      SerialAsksOnce(t.children[i], nodes, u, at);
      SerialSequenceAsksOnce(t, i + 1, nodes, u, Tick(t.children[i], nodes, u, at).at);
    }
  }

  // --- suppression ---

  /** A parallel node whose active subtree holds a problem suppresses new work before
      it ticks any child, whatever the clock does after its own first look. */
  lemma {:induction false} ProblemSuppressesFirst(t: Tree, nodes: Nodes, u: Clock, at: nat)
    requires t.kind.ParallelAll? && t.children != [] && u(at)
    requires Somewhere(Problem, t, nodes)
    ensures Tick(t, nodes, u, at).acts != [] && Tick(t, nodes, u, at).acts[0] == Suppress
  {
    if !Search(Problem, t, nodes, u, at + 1).0 {
      SearchNoMiss(Problem, t, nodes, u, at + 1);
    }
  }
}
