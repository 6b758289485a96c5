/** What SUCCESS and FAILURE of a tick tell about the frame. */
module TickOutcomes {
  import opened Options
  import opened ExecutorTypes
  import opened BehaviorTree
  import opened TickLaws

  // --- SUCCESS ---

  /** The node has nothing left to do in this frame. */
  ghost predicate Done(x: Tree, nodes: Nodes) {
    var v := Shown(nodes, x.id);
    match x.kind
    case Operation => Clear(v) && v.operationId.Some? && v.outcome.Succeeded? && v.released
    case Wait => Clear(v) && v.wait.Satisfied?
    case Intervention => Clear(v) && v.clearance.Some?
    case Branch => Clear(v) && v.branch.Some? && |x.children| == 2
    case Sequence => x.children != []
    case ParallelAll => x.children != [] && !Somewhere(Blocker, x, nodes)
  }

  ghost predicate AllDone(t: Tree, nodes: Nodes) {
    forall x | Active(x, t, nodes) :: Done(x, nodes)
  }

  lemma AllDoneStep(t: Tree, nodes: Nodes)
    ensures AllDone(t, nodes) <==> Done(t, nodes) && forall j | Open(t, nodes, j) :: AllDone(t.children[j], nodes)
  {
    if AllDone(t, nodes) {
      assert Active(t, t, nodes);
      forall j | Open(t, nodes, j) ensures AllDone(t.children[j], nodes) {
        forall x | Active(x, t.children[j], nodes) ensures Done(x, nodes) {
          assert Active(x, t, nodes);
        }
      }
    }
    if Done(t, nodes) && forall j | Open(t, nodes, j) :: AllDone(t.children[j], nodes) {
      forall x | Active(x, t, nodes) ensures Done(x, nodes) {
        if x != t {
          var j :| Open(t, nodes, j) && Active(x, t.children[j], nodes);
          assert AllDone(t.children[j], nodes);
        }
      }
    }
  }

  lemma {:induction false} EvalSequenceSucceedsIff(t: Tree, i: nat, nodes: Nodes)
    requires i <= |t.children|
    ensures EvalSequence(t, i, nodes).Success? <==>
            forall j | i <= j < |t.children| :: Eval(t.children[j], nodes).Success?
    decreases |t.children| - i
  {
    if i < |t.children| {
      EvalSequenceSucceedsIff(t, i + 1, nodes);
    }
  }

  /** SUCCESS exactly when every active node is done: operations succeeded, released, valid and
      known, waits satisfied, interventions cleared, branches decided, parallels unblocked. */
  lemma {:induction false} SuccessIffAllDone(t: Tree, nodes: Nodes)
    requires Shaped(t)
    ensures Eval(t, nodes).Success? <==> AllDone(t, nodes)
    decreases t
  {
    hide AllDone;
    AllDoneStep(t, nodes);
    forall j | 0 <= j < |t.children| ensures Eval(t.children[j], nodes).Success? <==> AllDone(t.children[j], nodes) {
      SuccessIffAllDone(t.children[j], nodes);
    }
    match t.kind {
      case Operation | Wait | Intervention =>
        assert forall j :: !Open(t, nodes, j);
      case Branch =>
        var v := Shown(nodes, t.id);
        if v.branch.Some? && |t.children| == 2 {
          assert forall j | Open(t, nodes, j) :: j == Lo(t, v);
          assert Open(t, nodes, Lo(t, v));
        }
      case Sequence =>
        EvalSequenceSucceedsIff(t, 0, nodes);
        assert forall j :: Open(t, nodes, j) <==> 0 <= j < |t.children|;
      case ParallelAll =>
        assert forall j :: Open(t, nodes, j) <==> 0 <= j < |t.children|;
        if AllDone(t, nodes) {
          assert forall s :: SomeChild(t, nodes, s) ==> s.Success?;
        }
        if Eval(t, nodes).Success? {
          forall j | 0 <= j < |t.children| ensures Eval(t.children[j], nodes).Success? {
            assert SomeChild(t, nodes, Eval(t.children[j], nodes));
          }
        }
    }
  }

  /** SUCCESS is never an artefact of timing: whatever the clock does during the tick. */
  lemma {:induction false} SuccessWhateverTheClock(t: Tree, nodes: Nodes, u: Clock, at: nat)
    requires Tick(t, nodes, u, at).status.Success?
    ensures Eval(t, nodes).Success?
    decreases t, |t.children| + 1
  {
    match t.kind {
      case Operation | Wait | Intervention =>
      case Branch =>
        SuccessWhateverTheClock(t.children[Lo(t, Shown(nodes, t.id))], nodes, u, at + 2);
      case Sequence =>
        SequenceSuccessWhateverTheClock(t, 0, nodes, u, at + 1);
        EvalSequenceSucceedsIff(t, 0, nodes);
      case ParallelAll =>
        var a := Search(Problem, t, nodes, u, at + 1).1;
        AllSuccessWhateverTheClock(t, 0, nodes, u, a, false, false);
        SearchNoMiss(Blocker, t, nodes, u, TickAll(t, 0, nodes, u, a, false, false).at);
        assert forall s :: SomeChild(t, nodes, s) ==> s.Success?;
    }
  }

  lemma {:induction false} SequenceSuccessWhateverTheClock(t: Tree, i: nat, nodes: Nodes, u: Clock, at: nat)
    requires i <= |t.children|
    requires TickSequence(t, i, nodes, u, at).status.Success?
    ensures forall j | i <= j < |t.children| :: Eval(t.children[j], nodes).Success?
    decreases t, |t.children| - i
  {
    if i < |t.children| {
      SuccessWhateverTheClock(t.children[i], nodes, u, at);
      SequenceSuccessWhateverTheClock(t, i + 1, nodes, u, Tick(t.children[i], nodes, u, at).at);
    }
  }

  lemma {:induction false} AllSuccessWhateverTheClock(
      t: Tree, i: nat, nodes: Nodes, u: Clock, at: nat, running: bool, failed: bool)
    requires i <= |t.children|
    requires var a := TickAll(t, i, nodes, u, at, running, failed); !a.running && !a.failed && !a.fault
    ensures !running && !failed
    ensures forall j | i <= j < |t.children| :: Eval(t.children[j], nodes).Success?
    decreases t, |t.children| - i
  {
    if i < |t.children| {
      var o := Tick(t.children[i], nodes, u, at);
      AllSuccessWhateverTheClock(t, i + 1, nodes, u, o.at, running || o.status.Running?, failed || o.status.Failure?);
      SuccessWhateverTheClock(t.children[i], nodes, u, at);
    }
  }

  // --- FAILURE ---

  /** The tick of `t` goes on to tick child `i`. */
  ghost predicate Enters(t: Tree, nodes: Nodes, i: int) {
    && 0 <= i < |t.children|
    && match t.kind
       case Sequence => forall j | 0 <= j < i :: Eval(t.children[j], nodes).Success?
       case ParallelAll => true
       case Branch => Clear(Shown(nodes, t.id)) && Open(t, nodes, i)
       case _ => false
  }

  /** `x` is where the tick of `t` gets to: every earlier child of every enclosing sequence
      has succeeded and every enclosing branch chose this side. */
  ghost predicate Reached(x: Tree, t: Tree, nodes: Nodes)
    decreases t
  {
    x == t || exists i | Enters(t, nodes, i) :: Reached(x, t.children[i], nodes)
  }

  lemma {:induction false} ReachedIsActive(x: Tree, t: Tree, nodes: Nodes)
    requires Reached(x, t, nodes)
    ensures Active(x, t, nodes)
    decreases t
  {
    if x != t {
      var i :| Enters(t, nodes, i) && Reached(x, t.children[i], nodes);
      ReachedIsActive(x, t.children[i], nodes);
      assert Open(t, nodes, i);
    }
  }

  ghost predicate Live(x: Tree, nodes: Nodes) {
    x.kind.Operation? && Shown(nodes, x.id).operationId.Some? && Shown(nodes, x.id).outcome.NoOutcome?
  }

  lemma {:induction false} EvalSequenceStopsAt(t: Tree, i: nat, k: nat, nodes: Nodes)
    requires i <= k < |t.children|
    requires forall j | i <= j < k :: Eval(t.children[j], nodes).Success?
    requires !Eval(t.children[k], nodes).Success?
    ensures EvalSequence(t, i, nodes) == Eval(t.children[k], nodes)
    decreases k - i
  {
    if i < k {
      EvalSequenceStopsAt(t, i + 1, k, nodes);
    }
  }

  /** No node finishes over a live operation its tick has reached. */
  lemma {:induction false} ReachedLiveKeepsRunning(x: Tree, t: Tree, nodes: Nodes)
    requires Reached(x, t, nodes) && Live(x, nodes)
    ensures Eval(t, nodes).Running? || Eval(t, nodes).Fault?
    decreases t
  {
    if x != t {
      var i :| Enters(t, nodes, i) && Reached(x, t.children[i], nodes);
      ReachedLiveKeepsRunning(x, t.children[i], nodes);
      match t.kind {
        case Sequence => EvalSequenceStopsAt(t, 0, i, nodes);
        case ParallelAll =>
          ReachedIsActive(x, t, nodes);
          assert SomeChild(t, nodes, Eval(t.children[i], nodes));
        case Branch => assert i == Lo(t, Shown(nodes, t.id));
      }
    }
  }

  /** Accepted frames bind operations at operation nodes only. */
  ghost predicate KindsRespected(t: Tree, nodes: Nodes) {
    forall x | Active(x, t, nodes) && Shown(nodes, x.id).operationId.Some? :: x.kind.Operation?
  }

  /** A parallel node that reports FAILURE leaves no blocker behind, and no live operation
      either, exactly when no live operation sits behind an unfinished sequence sibling. */
  lemma {:induction false} ParallelFailureLeavesNothing(t: Tree, nodes: Nodes, u: Clock, at: nat)
    requires t.kind.ParallelAll? && KindsRespected(t, nodes)
    requires Tick(t, nodes, u, at).status.Failure?
    requires Good(u, at, Tick(t, nodes, u, at).at)
    ensures !Somewhere(Blocker, t, nodes)
    ensures !Somewhere(LiveWork, t, nodes) <==>
            forall x | Active(x, t, nodes) && Live(x, nodes) :: Reached(x, t, nodes)
  {
    TickIsEval(t, nodes, u, at);
    if forall x | Active(x, t, nodes) && Live(x, nodes) :: Reached(x, t, nodes) {
      forall x | Active(x, t, nodes) ensures !Hit(LiveWork, x.kind, Shown(nodes, x.id)) {
        if Hit(LiveWork, x.kind, Shown(nodes, x.id)) {
          ReachedLiveKeepsRunning(x, t, nodes);
        }
      }
    }
  }
}
