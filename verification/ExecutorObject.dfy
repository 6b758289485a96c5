/** `Executor`: the tree and the context it drives (runtime.cpp:175-182, nodes.cpp). */
module ExecutorObject {
  import opened Options
  import opened ExecutorTypes
  import opened Continuity
  import opened ContextState
  import opened ContextObject
  import opened BehaviorTree
  import opened TickEffects
  import opened XmlTree
  import opened XmlUnfolding

  /** The whole is `done` followed by the rest. */
  ghost predicate Continues(all: Out, done: seq<Action>, rest: Out) {
    all == rest.(acts := done + rest.acts)
  }

  ghost predicate ContinuesAll(all: All, done: seq<Action>, rest: All) {
    all == rest.(acts := done + rest.acts)
  }

  lemma SequenceStep(all: Out, done: seq<Action>, t: Tree, i: nat, nodes: Nodes, u: Clock, at: nat)
    requires i < |t.children| && Continues(all, done, TickSequence(t, i, nodes, u, at))
    ensures var o := BehaviorTree.Tick(t.children[i], nodes, u, at);
            if o.status.Success? then Continues(all, done + o.acts, TickSequence(t, i + 1, nodes, u, o.at))
            else all == o.(acts := done + o.acts)
  {
    var o := BehaviorTree.Tick(t.children[i], nodes, u, at);
    var rest := TickSequence(t, i + 1, nodes, u, o.at);
    assert done + (o.acts + rest.acts) == (done + o.acts) + rest.acts;
  }

  lemma AllStep(all: All, done: seq<Action>, t: Tree, i: nat, nodes: Nodes, u: Clock, at: nat,
                running: bool, failed: bool)
    requires i < |t.children| && ContinuesAll(all, done, TickAll(t, i, nodes, u, at, running, failed))
    ensures var o := BehaviorTree.Tick(t.children[i], nodes, u, at);
            if o.status.Fault? then all == All(running, failed, true, done + o.acts, o.at)
            else ContinuesAll(all, done + o.acts,
              TickAll(t, i + 1, nodes, u, o.at, running || o.status.Running?, failed || o.status.Failure?))
  {
    var o := BehaviorTree.Tick(t.children[i], nodes, u, at);
    var rest := TickAll(t, i + 1, nodes, u, o.at, running || o.status.Running?, failed || o.status.Failure?);
    assert done + (o.acts + rest.acts) == (done + o.acts) + rest.acts;
  }

  class Executor {
    const context: Context
    const tree: Tree

    ghost predicate Valid() {
      Agrees(tree, context.config.definitions)
    }

    constructor (context: Context, tree: Tree)
      requires Agrees(tree, context.config.definitions)
      ensures this.context == context && this.tree == tree && Valid()
    {
      this.context := context;
      this.tree := tree;
    }

    /** The outcome a tick of `t` must have. */
    ghost function Expected(t: Tree, clock: nat -> Reading, at: nat): Out
      reads context`tick
    {
      BehaviorTree.Tick(t, NodesOf(context.tick), UsableBy(context.tick, clock), at)
    }

    ghost function After(s: State, acts: seq<Action>): State {
      Perform(context.config, s, acts)
    }

    method Propose(t: Tree, kind: RequestKind, look: Reading)
      requires t.id in context.config.definitions
      modifies context`queue, context`requested
      ensures context.View() ==
              Act(context.config, old(context.View()), Action.Propose(t.id, kind, Usable(context.tick, look)))
    {
      var answer := context.Enqueue(t.id, kind, look);
    }

    method TickLeaf(t: Tree, clock: nat -> Reading, at: nat) returns (status: Status, next: nat)
      requires IsLeaf(t.kind) && t.id in context.config.definitions
      modifies context`queue, context`requested
      ensures status == Expected(t, clock, at).status && next == Expected(t, clock, at).at
      ensures context.View() == After(old(context.View()), Expected(t, clock, at).acts)
    {
      var value := Seen(NodesOf(context.tick), t.id, Usable(context.tick, clock(at)));
      if !Usable(context.tick, clock(at + 1)) || value.unknown || !value.integrityValid {
        return Running, at + 2;
      }
      var d := LeafVerdict(t.kind, value);
      if d.ask.None? {
        return d.status, at + 2;
      }
      ghost var s := context.View();
      Propose(t, d.ask.value, clock(at + 2));
      One(s, Action.Propose(t.id, d.ask.value, Usable(context.tick, clock(at + 2))));
      return d.status, at + 3;
    }

    lemma One(s: State, a: Action)
      ensures After(s, [a]) == Act(context.config, s, a)
      ensures After(s, []) == s
    {
      var acts := [a];
      assert acts[..|acts| - 1] == [];
      assert Perform(context.config, s, acts[..|acts| - 1]) == s;
    }

    method TickNode(t: Tree, clock: nat -> Reading, at: nat) returns (status: Status, next: nat)
      requires Agrees(t, context.config.definitions)
      modifies context`queue, context`requested, context`suppress
      ensures status == Expected(t, clock, at).status && next == Expected(t, clock, at).at
      ensures context.View() == After(old(context.View()), Expected(t, clock, at).acts)
      decreases t, 1
    {
      if IsLeaf(t.kind) {
        status, next := TickLeaf(t, clock, at);
        return;
      }
      if !Usable(context.tick, clock(at)) {
        return Running, at + 1;
      }
      if t.kind.Branch? {
        status, next := TickBranch(t, clock, at);
        return;
      }
      if t.children == [] {
        return Fault, at + 1;
      }
      if t.kind.Sequence? {
        status, next := TickInOrder(t, clock, at + 1);
      } else {
        status, next := TickTogether(t, clock, at);
      }
    }

    method TickBranch(t: Tree, clock: nat -> Reading, at: nat) returns (status: Status, next: nat)
      requires Agrees(t, context.config.definitions) && t.kind.Branch? && Usable(context.tick, clock(at))
      modifies context`queue, context`requested, context`suppress
      ensures status == Expected(t, clock, at).status && next == Expected(t, clock, at).at
      ensures context.View() == After(old(context.View()), Expected(t, clock, at).acts)
      decreases t, 0
    {
      var choice := Seen(NodesOf(context.tick), t.id, Usable(context.tick, clock(at + 1)));
      if choice.unknown || !choice.integrityValid {
        return Running, at + 2;
      }
      if choice.branch.None? {
        ghost var s := context.View();
        Propose(t, ResolveBranch, clock(at + 2));
        One(s, Action.Propose(t.id, ResolveBranch, Usable(context.tick, clock(at + 2))));
        return Running, at + 3;
      }
      if |t.children| != 2 {
        return Fault, at + 2;
      }
      status, next := TickNode(t.children[if choice.branch.value then 0 else 1], clock, at + 2);
    }

    method TickInOrder(t: Tree, clock: nat -> Reading, at: nat) returns (status: Status, next: nat)
      requires Agrees(t, context.config.definitions)
      modifies context`queue, context`requested, context`suppress
      ensures var o := TickSequence(t, 0, NodesOf(context.tick), UsableBy(context.tick, clock), at);
              status == o.status && next == o.at && context.View() == After(old(context.View()), o.acts)
      decreases t, 0
    {
      status, next := Success, at;
      ghost var u, nodes := UsableBy(context.tick, clock), NodesOf(context.tick);
      ghost var all := TickSequence(t, 0, nodes, u, at);
      ghost var s, done := context.View(), [];
      for i := 0 to |t.children|
        invariant context.View() == After(s, done)
        invariant Continues(all, done, TickSequence(t, i, nodes, u, next))
      {
        SequenceStep(all, done, t, i, nodes, u, next);
        ghost var acts := BehaviorTree.Tick(t.children[i], nodes, u, next).acts;
        PerformConcat(context.config, s, done, acts);
        status, next := TickNode(t.children[i], clock, next);
        done := done + acts;
        if !status.Success? {
          return;
        }
      }
      assert done + [] == done;
      status := Success;
    }

    /** The children of a parallel node, all of them, with the running and failed flags. */
    method TickEach(t: Tree, clock: nat -> Reading, at: nat)
      returns (running: bool, failed: bool, fault: bool, next: nat)
      requires Agrees(t, context.config.definitions)
      modifies context`queue, context`requested, context`suppress
      ensures var a := TickAll(t, 0, NodesOf(context.tick), UsableBy(context.tick, clock), at, false, false);
              && fault == a.fault && next == a.at
              && (!fault ==> running == a.running && failed == a.failed)
              && context.View() == After(old(context.View()), a.acts)
      decreases t, 0, 0
    {
      running, failed, fault, next := false, false, false, at;
      ghost var u, nodes := UsableBy(context.tick, clock), NodesOf(context.tick);
      ghost var all := TickAll(t, 0, nodes, u, at, false, false);
      ghost var s, done := context.View(), [];
      for i := 0 to |t.children|
        invariant !fault
        invariant context.View() == After(s, done)
        invariant ContinuesAll(all, done, TickAll(t, i, nodes, u, next, running, failed))
      {
        AllStep(all, done, t, i, nodes, u, next, running, failed);
        ghost var acts := BehaviorTree.Tick(t.children[i], nodes, u, next).acts;
        PerformConcat(context.config, s, done, acts);
        var result;
        result, next := TickNode(t.children[i], clock, next);
        done := done + acts;
        if result.Fault? {
          fault := true;
          return;
        }
        running, failed := running || result.Running?, failed || result.Failure?;
      }
      assert done + [] == done;
    }

    method TickTogether(t: Tree, clock: nat -> Reading, at: nat) returns (status: Status, next: nat)
      requires Agrees(t, context.config.definitions)
      requires t.kind.ParallelAll? && t.children != [] && Usable(context.tick, clock(at))
      modifies context`queue, context`requested, context`suppress
      ensures status == Expected(t, clock, at).status && next == Expected(t, clock, at).at
      ensures context.View() == After(old(context.View()), Expected(t, clock, at).acts)
      decreases t, 0, 1
    {
      var u, nodes := UsableBy(context.tick, clock), NodesOf(context.tick);
      var found, a := Search(Problem, t, nodes, u, at + 1).0, Search(Problem, t, nodes, u, at + 1).1;
      ghost var s := context.View();
      ghost var first := if found then [Suppress] else [];
      One(s, Suppress);
      if found {
        context.SuppressNewForTick();
      }
      var running, failed, fault, b := TickEach(t, clock, a);
      PerformConcat(context.config, s, first, TickAll(t, 0, nodes, u, a, false, false).acts);
      if fault {
        return Fault, b;
      }
      var blocked, c := Search(Blocker, t, nodes, u, b).0, Search(Blocker, t, nodes, u, b).1;
      if blocked {
        return Running, c;
      }
      if failed {
        var live, d := Search(LiveWork, t, nodes, u, c).0, Search(LiveWork, t, nodes, u, c).1;
        if !live {
          return Failure, d;
        }
        c := d;
      }
      return if running then Running else if failed then Failure else Success, c;
    }

    /** One tick on the frame held when it starts. */
    method Tick(clock: nat -> Reading) returns (status: Status)
      requires Valid()
      modifies context`tick, context`queue, context`requested, context`suppress
      ensures context.tick == old(context.incoming)
      ensures status == Expected(tree, clock, 0).status
      ensures context.View() == After(BeginTick(old(context.View())), Expected(tree, clock, 0).acts)
    {
      context.BeginTick();
      var next;
      status, next := TickNode(tree, clock, 0);
    }

    method Halt()
      requires context.config.root in context.config.definitions
      modifies context`queue, context`requested, context`halted
      ensures context.View() == LatchPause(context.config, old(context.View()))
    {
      var answer := context.Pause(context.config.root);
    }
  }

  /** Only a document that is the resolved process gets a running tree. */
  method NewExecutor(document: seq<Xml>, context: Context) returns (r: Option<Executor>)
    requires ValidConfig(context.config)
    ensures r.Some? <==> IsResolvedProcess(document, context.config)
    ensures r.Some? ==> && fresh(r.value) && r.value.Valid() && r.value.context == context
                        && r.value.tree == Build(Body(document).value, context.config.definitions, context.config.root)
  {
    var ok := ValidateXml(document, context.config);
    if !ok {
      return None;
    }
    var tree := Build(Body(document).value, context.config.definitions, context.config.root);
    BuildAgrees(Body(document).value, context.config.definitions, context.config.root);
    var e := new Executor(context, tree);
    return Some(e);
  }
}
