/** What a tick means: a clock-free reading of the tree, and what every tick keeps to. */
module TickLaws {
  import opened Options
  import opened ExecutorTypes
  import opened BehaviorTree

  // --- reference reading of a frame, without clocks, cursors or actions ---

  predicate Open(t: Tree, nodes: Nodes, i: int) {
    Lo(t, Shown(nodes, t.id)) <= i < Hi(t, Shown(nodes, t.id))
  }

  /** `x` lies in the active subtree of `t`: no decided branch closes it off. */
  ghost predicate Active(x: Tree, t: Tree, nodes: Nodes)
    decreases t
  {
    x == t || exists i | Open(t, nodes, i) :: Active(x, t.children[i], nodes)
  }

  ghost predicate Somewhere(p: Probe, t: Tree, nodes: Nodes) {
    exists x :: Active(x, t, nodes) && Hit(p, x.kind, Shown(nodes, x.id))
  }

  predicate Clear(v: Observation) {
    !v.unknown && v.integrityValid
  }

  /** The status a tick would report with an unlimited view. */
  ghost function Eval(t: Tree, nodes: Nodes): Status
    decreases t, |t.children| + 1
  {
    var v := Shown(nodes, t.id);
    match t.kind
    case Operation | Wait | Intervention => if Clear(v) then LeafVerdict(t.kind, v).status else Running
    case Branch =>
      if !Clear(v) || v.branch.None? then Running
      else if |t.children| != 2 then Fault
      else Eval(t.children[Lo(t, v)], nodes)
    case Sequence => if t.children == [] then Fault else EvalSequence(t, 0, nodes)
    case ParallelAll =>
      if t.children == [] || SomeChild(t, nodes, Fault) then Fault
      else if Somewhere(Blocker, t, nodes) then Running
      else if SomeChild(t, nodes, Failure) && !Somewhere(LiveWork, t, nodes) then Failure
      else if SomeChild(t, nodes, Running) then Running
      else if SomeChild(t, nodes, Failure) then Failure
      else Success
  }

  ghost function EvalSequence(t: Tree, i: nat, nodes: Nodes): Status
    requires i <= |t.children|
    decreases t, |t.children| - i
  {
    if i == |t.children| then Success
    else if !Eval(t.children[i], nodes).Success? then Eval(t.children[i], nodes)
    else EvalSequence(t, i + 1, nodes)
  }

  ghost predicate SomeChild(t: Tree, nodes: Nodes, s: Status)
    decreases t, 0
  {
    exists i | 0 <= i < |t.children| :: Eval(t.children[i], nodes) == s
  }

  /** Every look the computation makes, from `at` up to `end`, finds the view usable. */
  ghost predicate Good(u: Clock, at: nat, end: nat) {
    forall k: nat | at <= k < end :: u(k)
  }

  // --- searches ---

  lemma SomewhereStep(p: Probe, t: Tree, nodes: Nodes)
    ensures Somewhere(p, t, nodes) <==>
            Hit(p, t.kind, Shown(nodes, t.id)) || exists j | Open(t, nodes, j) :: Somewhere(p, t.children[j], nodes)
  {
    if Somewhere(p, t, nodes) {
      var x :| Active(x, t, nodes) && Hit(p, x.kind, Shown(nodes, x.id));
      if x != t {
        var i :| Open(t, nodes, i) && Active(x, t.children[i], nodes);
        assert Somewhere(p, t.children[i], nodes);
      }
    }
    if Hit(p, t.kind, Shown(nodes, t.id)) {
      assert Active(t, t, nodes);
    }
    forall j | Open(t, nodes, j) && Somewhere(p, t.children[j], nodes) ensures Somewhere(p, t, nodes) {
      var x :| Active(x, t.children[j], nodes) && Hit(p, x.kind, Shown(nodes, x.id));
      assert Active(x, t, nodes);
    }
  }

  /** With every look usable, a search answers whether some active node is hit. */
  lemma {:induction false} SearchExact(p: Probe, t: Tree, nodes: Nodes, u: Clock, at: nat)
    requires Good(u, at, Search(p, t, nodes, u, at).1)
    ensures Search(p, t, nodes, u, at).0 <==> Somewhere(p, t, nodes)
    decreases t, |t.children| + 1
  {
    SomewhereStep(p, t, nodes);
    var v := Shown(nodes, t.id);
    assert u(at);
    if !Hit(p, t.kind, v) {
      SearchFromExact(p, t, Lo(t, v), Hi(t, v), nodes, u, at + 1);
    }
  }

  lemma {:induction false} SearchFromExact(p: Probe, t: Tree, i: nat, hi: nat, nodes: Nodes, u: Clock, at: nat)
    requires i <= hi <= |t.children|
    requires Good(u, at, SearchFrom(p, t, i, hi, nodes, u, at).1)
    ensures SearchFrom(p, t, i, hi, nodes, u, at).0 <==> exists j | i <= j < hi :: Somewhere(p, t.children[j], nodes)
    decreases t, hi - i
  {
    if i < hi {
      SearchExact(p, t.children[i], nodes, u, at);
      var (found, next) := Search(p, t.children[i], nodes, u, at);
      if !found {
        SearchFromExact(p, t, i + 1, hi, nodes, u, next);
      }
    }
  }

  /** A search that may answer "unknown" never misses: if it finds nothing, every look
      was usable and nothing active is hit, whatever the clock does. */
  lemma {:induction false} SearchNoMiss(p: Probe, t: Tree, nodes: Nodes, u: Clock, at: nat)
    requires !p.LiveWork?
    requires !Search(p, t, nodes, u, at).0
    ensures Good(u, at, Search(p, t, nodes, u, at).1)
    ensures !Somewhere(p, t, nodes)
  {
    SearchAllGood(p, t, nodes, u, at);
    SearchExact(p, t, nodes, u, at);
  }

  lemma {:induction false} SearchAllGood(p: Probe, t: Tree, nodes: Nodes, u: Clock, at: nat)
    requires !p.LiveWork?
    requires !Search(p, t, nodes, u, at).0
    ensures Good(u, at, Search(p, t, nodes, u, at).1)
    decreases t, |t.children| + 1
  {
    var v := Seen(nodes, t.id, u(at));
    SearchFromAllGood(p, t, Lo(t, v), Hi(t, v), nodes, u, at + 1);
  }

  lemma {:induction false} SearchFromAllGood(p: Probe, t: Tree, i: nat, hi: nat, nodes: Nodes, u: Clock, at: nat)
    requires i <= hi <= |t.children|
    requires !p.LiveWork?
    requires !SearchFrom(p, t, i, hi, nodes, u, at).0
    ensures Good(u, at, SearchFrom(p, t, i, hi, nodes, u, at).1)
    decreases t, hi - i
  {
    if i < hi {
      SearchAllGood(p, t.children[i], nodes, u, at);
      SearchFromAllGood(p, t, i + 1, hi, nodes, u, Search(p, t.children[i], nodes, u, at).1);
    }
  }

  // --- status ---

  /** While the view stays usable the tick reports exactly the clock-free status. */
  lemma {:induction false} TickIsEval(t: Tree, nodes: Nodes, u: Clock, at: nat)
    requires Good(u, at, Tick(t, nodes, u, at).at)
    ensures Tick(t, nodes, u, at).status == Eval(t, nodes)
    decreases t, |t.children| + 1, 1
  {
    var v := Shown(nodes, t.id);
    match t.kind {
      case Operation | Wait | Intervention =>
      case Branch =>
        assert u(at) && u(at + 1);
        if Clear(v) && v.branch.Some? && |t.children| == 2 {
          TickIsEval(t.children[Lo(t, v)], nodes, u, at + 2);
        }
      case Sequence =>
        if t.children != [] {
          TickSequenceIsEval(t, 0, nodes, u, at + 1);
        }
      case ParallelAll =>
        ParallelIsEval(t, nodes, u, at);
    }
  }

  lemma {:induction false} ParallelIsEval(t: Tree, nodes: Nodes, u: Clock, at: nat)
    requires t.kind.ParallelAll?
    requires Good(u, at, Tick(t, nodes, u, at).at)
    ensures Tick(t, nodes, u, at).status == Eval(t, nodes)
    decreases t, |t.children| + 1, 0
  {
    hide Search, TickAll, Somewhere;
    if t.children != [] {
      assert u(at);
      var a := Search(Problem, t, nodes, u, at + 1).1;
      var all := TickAll(t, 0, nodes, u, a, false, false);
      TickAllIsEval(t, 0, nodes, u, a, false, false);
      if !all.fault {
        SearchExact(Blocker, t, nodes, u, all.at);
        var (blocked, b) := Search(Blocker, t, nodes, u, all.at);
        if !blocked && all.failed {
          SearchExact(LiveWork, t, nodes, u, b);
        }
      }
    }
  }

  lemma {:induction false} TickSequenceIsEval(t: Tree, i: nat, nodes: Nodes, u: Clock, at: nat)
    requires i <= |t.children|
    requires Good(u, at, TickSequence(t, i, nodes, u, at).at)
    ensures TickSequence(t, i, nodes, u, at).status == EvalSequence(t, i, nodes)
    decreases t, |t.children| - i
  {
    if i < |t.children| {
      TickIsEval(t.children[i], nodes, u, at);
      var o := Tick(t.children[i], nodes, u, at);
      if o.status.Success? {
        TickSequenceIsEval(t, i + 1, nodes, u, o.at);
      }
    }
  }

  lemma {:induction false} TickAllIsEval(t: Tree, i: nat, nodes: Nodes, u: Clock, at: nat, running: bool, failed: bool)
    requires i <= |t.children|
    requires Good(u, at, TickAll(t, i, nodes, u, at, running, failed).at)
    ensures var a := TickAll(t, i, nodes, u, at, running, failed);
            && (a.fault <==> exists j | i <= j < |t.children| :: Eval(t.children[j], nodes).Fault?)
            && (!a.fault ==>
                  && (a.running <==> running || exists j | i <= j < |t.children| :: Eval(t.children[j], nodes).Running?)
                  && (a.failed <==> failed || exists j | i <= j < |t.children| :: Eval(t.children[j], nodes).Failure?))
    decreases t, |t.children| - i
  {
    hide Eval, Tick, Search;
    if i < |t.children| {
      TickIsEval(t.children[i], nodes, u, at);
      var o := Tick(t.children[i], nodes, u, at);
      if !o.status.Fault? {
        TickAllIsEval(t, i + 1, nodes, u, o.at, running || o.status.Running?, failed || o.status.Failure?);
      }
    }
  }
}
