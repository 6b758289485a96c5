/** One tick of the RX tree (native/executor/nodes.cpp:24-122).

    Nothing a tick decides depends on the request queue, so a tick is a function
    of the tree, the frame's nodes and the clock looks it makes.  `u(k)` says
    whether the k-th look finds the view usable; `at` is the next look. */
module BehaviorTree {
  import opened Options
  import opened ExecutorTypes

  type Nodes = map<string, Observation>
  type Clock = nat -> bool

  datatype Tree = Tree(id: string, kind: Kind, children: seq<Tree>)

  predicate IsLeaf(k: Kind) {
    k.Operation? || k.Wait? || k.Intervention?
  }

  /** Action nodes have no children and a branch has two. */
  predicate Shaped(t: Tree) {
    && (IsLeaf(t.kind) ==> t.children == [])
    && (t.kind.Branch? ==> |t.children| == 2)
    && forall i | 0 <= i < |t.children| :: Shaped(t.children[i])
  }

  /** Fault stands for the C++ exceptions a tick can raise. */
  datatype Status = Running | Success | Failure | Fault

  /** What a tick asks of the context, in order. */
  datatype Action = Suppress | Propose(node: string, kind: RequestKind, timely: bool)

  datatype Out = Out(status: Status, acts: seq<Action>, at: nat)

  /** `Context::observe`. */
  function Seen(nodes: Nodes, id: string, usable: bool): Observation {
    if usable then Shown(nodes, id) else BLANK.(unknown := true)
  }

  // --- the three subtree searches: has_problem, has_blocker, has_live_work ---

  datatype Probe = Problem | Blocker | LiveWork

  predicate Hit(p: Probe, k: Kind, v: Observation) {
    match p
    case Problem =>
      || v.unknown || !v.integrityValid
      || v.outcome in {Unresolved, Failed, Canceled, NotExecuted}
      || (k.Wait? && v.wait.TimedOut?)
      || (k.Intervention? && v.clearance.None?)
    case Blocker =>
      || v.unknown || !v.integrityValid || v.outcome.Unresolved?
      || (k.Intervention? && v.clearance.None?)
    case LiveWork => v.operationId.Some? && v.outcome.NoOutcome?
  }

  /** `active_children`: of `n` children, those from FirstOpen up to EndOpen are the ones
      the observation leaves open. */
  function FirstOpen(k: Kind, n: nat, v: Observation): nat {
    if k.Branch? && v.branch == Some(false) && n == 2 then 1 else 0
  }

  function EndOpen(k: Kind, n: nat, v: Observation): (hi: nat)
    ensures FirstOpen(k, n, v) <= hi <= n
  {
    if !k.Branch? then n
    else if v.branch.None? || n != 2 then 0
    else FirstOpen(k, n, v) + 1
  }

  function Lo(t: Tree, v: Observation): nat {
    FirstOpen(t.kind, |t.children|, v)
  }

  function Hi(t: Tree, v: Observation): (hi: nat)
    ensures Lo(t, v) <= hi <= |t.children|
  {
    EndOpen(t.kind, |t.children|, v)
  }

  function Search(p: Probe, t: Tree, nodes: Nodes, u: Clock, at: nat): (r: (bool, nat))
    ensures r.1 > at
    decreases t, |t.children| + 1
  {
    var v := Seen(nodes, t.id, u(at));
    if Hit(p, t.kind, v) then (true, at + 1)
    else SearchFrom(p, t, Lo(t, v), Hi(t, v), nodes, u, at + 1)
  }

  function SearchFrom(p: Probe, t: Tree, i: nat, hi: nat, nodes: Nodes, u: Clock, at: nat): (r: (bool, nat))
    requires i <= hi <= |t.children|
    ensures r.1 >= at
    decreases t, hi - i
  {
    if i == hi then (false, at)
    else
      var (found, next) := Search(p, t.children[i], nodes, u, at);
      if found then (true, next) else SearchFrom(p, t, i + 1, hi, nodes, u, next)
  }

  // --- the tick ---

  datatype Verdict = Verdict(status: Status, ask: Option<RequestKind>)

  /** What a leaf makes of a usable, known, intact observation. */
  function LeafVerdict(k: Kind, v: Observation): Verdict {
    match k
    case Operation =>
      if v.operationId.None? then Verdict(Running, Some(SubmitOperation))
      else (match v.outcome
            case Succeeded => if v.released then Verdict(Success, None) else Verdict(Running, Some(RequestHandover))
            case Failed | Canceled | NotExecuted => Verdict(Failure, None)
            case Unresolved | NoOutcome => Verdict(Running, None))
    case Wait =>
      (match v.wait
       case Satisfied => Verdict(Success, None)
       case TimedOut => Verdict(Failure, None)
       case Waiting => Verdict(Running, Some(BeginWait)))
    case Intervention =>
      if v.clearance.Some? then Verdict(Success, None) else Verdict(Running, Some(RequestIntervention))
    case _ => Verdict(Fault, None)
  }

  function TickLeaf(t: Tree, nodes: Nodes, u: Clock, at: nat): (o: Out)
    ensures o.at >= at
  {
    var v := Seen(nodes, t.id, u(at));
    if !u(at + 1) || v.unknown || !v.integrityValid then Out(Running, [], at + 2)
    else
      var d := LeafVerdict(t.kind, v);
      if d.ask.Some? then Out(d.status, [Propose(t.id, d.ask.value, u(at + 2))], at + 3)
      else Out(d.status, [], at + 2)
  }

  function Tick(t: Tree, nodes: Nodes, u: Clock, at: nat): (o: Out)
    ensures o.at >= at
    decreases t, |t.children| + 1
  {
    match t.kind
    case Operation | Wait | Intervention => TickLeaf(t, nodes, u, at)
    case Branch =>
      if !u(at) then Out(Running, [], at + 1)
      else
        var v := Seen(nodes, t.id, u(at + 1));
        if v.unknown || !v.integrityValid then Out(Running, [], at + 2)
        else if v.branch.None? then Out(Running, [Propose(t.id, ResolveBranch, u(at + 2))], at + 3)
        else if |t.children| != 2 then Out(Fault, [], at + 2)
        else Tick(t.children[Lo(t, v)], nodes, u, at + 2)
    case Sequence =>
      if !u(at) then Out(Running, [], at + 1)
      else if t.children == [] then Out(Fault, [], at + 1)
      else TickSequence(t, 0, nodes, u, at + 1)
    case ParallelAll =>
      if !u(at) then Out(Running, [], at + 1)
      else if t.children == [] then Out(Fault, [], at + 1)
      else
        var (problem, a) := Search(Problem, t, nodes, u, at + 1);
        var all := TickAll(t, 0, nodes, u, a, false, false);
        var acts := (if problem then [Suppress] else []) + all.acts;
        if all.fault then Out(Fault, acts, all.at)
        else
          var (blocked, b) := Search(Blocker, t, nodes, u, all.at);
          if blocked then Out(Running, acts, b)
          else
            var (live, c) := if all.failed then Search(LiveWork, t, nodes, u, b) else (true, b);
            if all.failed && !live then Out(Failure, acts, c)
            else Out(if all.running then Running else if all.failed then Failure else Success, acts, c)
  }

  /** A sequence stops at the first child that does not succeed. */
  function TickSequence(t: Tree, i: nat, nodes: Nodes, u: Clock, at: nat): (o: Out)
    requires i <= |t.children|
    ensures o.at >= at
    decreases t, |t.children| - i
  {
    if i == |t.children| then Out(Success, [], at)
    else
      var o := Tick(t.children[i], nodes, u, at);
      if !o.status.Success? then o
      else
        var rest := TickSequence(t, i + 1, nodes, u, o.at);
        rest.(acts := o.acts + rest.acts)
  }

  datatype All = All(running: bool, failed: bool, fault: bool, acts: seq<Action>, at: nat)

  /** A parallel node ticks every child whatever its siblings return. */
  function TickAll(t: Tree, i: nat, nodes: Nodes, u: Clock, at: nat, running: bool, failed: bool): (a: All)
    requires i <= |t.children|
    ensures a.at >= at
    decreases t, |t.children| - i
  {
    if i == |t.children| then All(running, failed, false, [], at)
    else
      var o := Tick(t.children[i], nodes, u, at);
      if o.status.Fault? then All(running, failed, true, o.acts, o.at)
      else
        var rest := TickAll(t, i + 1, nodes, u, o.at, running || o.status.Running?, failed || o.status.Failure?);
        rest.(acts := o.acts + rest.acts)
  }
}
