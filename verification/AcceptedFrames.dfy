/** Ticks on frames that `publish` accepts: what SUCCESS needs, and frames that show where the
    promises of a tick end. */
module AcceptedFrames {
  import opened Options
  import opened ExecutorTypes
  import opened Continuity
  import opened BehaviorTree
  import opened TickLaws
  import opened TickOutcomes
  import opened TickExpiry
  import opened XmlUnfolding

  // --- SUCCESS, node by node ---

  /** A leaf has done its work, a branch is decided, a control node has children. */
  ghost predicate Served(x: Tree, nodes: Nodes) {
    var v := Shown(nodes, x.id);
    match x.kind
    case Operation => Clear(v) && v.operationId.Some? && v.outcome.Succeeded? && v.released
    case Wait => Clear(v) && v.wait.Satisfied?
    case Intervention => Clear(v) && v.clearance.Some?
    case Branch => Clear(v) && v.branch.Some?
    case Sequence | ParallelAll => x.children != []
  }

  /** Every active node is served, and what is shown of control nodes below a parallel node is known and intact. */
  ghost predicate Finished(t: Tree, nodes: Nodes) {
    && (forall x | Active(x, t, nodes) :: Served(x, nodes))
    && forall x, y | Active(x, t, nodes) && x.kind.ParallelAll? && Active(y, x, nodes) :: Clear(Shown(nodes, y.id))
  }

  lemma {:induction false} ActiveTransitive(y: Tree, x: Tree, t: Tree, nodes: Nodes)
    requires Active(y, x, nodes) && Active(x, t, nodes)
    ensures Active(y, t, nodes)
    decreases t
  {
    if x != t {
      var i :| Open(t, nodes, i) && Active(x, t.children[i], nodes);
      ActiveTransitive(y, x, t.children[i], nodes);
    }
  }

  lemma {:induction false} ActiveShaped(x: Tree, t: Tree, nodes: Nodes)
    requires Shaped(t) && Active(x, t, nodes)
    ensures Shaped(x)
    decreases t
  {
    if x != t {
      var i :| Open(t, nodes, i) && Active(x, t.children[i], nodes);
      ActiveShaped(x, t.children[i], nodes);
    }
  }

  lemma NothingBlocks(x: Tree, t: Tree, defs: map<string, Definition>, m: Memory, nodes: Nodes)
    requires Agrees(t, defs) && NodesFit(defs, m, nodes) && Finished(t, nodes)
    requires Active(x, t, nodes) && x.kind.ParallelAll?
    ensures !Somewhere(Blocker, x, nodes)
  {
    forall y | Active(y, x, nodes) ensures !Hit(Blocker, y.kind, Shown(nodes, y.id)) {
      ActiveTransitive(y, x, t, nodes);
      ActiveAgrees(y, t, defs, nodes);
      assert Served(y, nodes) && Clear(Shown(nodes, y.id));
      assert y.id in nodes ==> NodeFits(defs, m, y.id, nodes[y.id]);
    }
  }

  /** On an accepted frame SUCCESS means exactly this: every active operation has succeeded, is released, intact
      and known, every wait is satisfied, every intervention cleared and every branch decided, and nothing
      below a parallel node is shown unknown or damaged. */
  lemma {:induction false} SuccessOfAcceptedFrame(t: Tree, defs: map<string, Definition>, m: Memory, nodes: Nodes)
    requires Shaped(t) && Agrees(t, defs) && NodesFit(defs, m, nodes)
    ensures Eval(t, nodes).Success? <==> Finished(t, nodes)
  {
    hide Somewhere, Eval, NodesFit, Agrees;
    SuccessIffAllDone(t, nodes);
    if AllDone(t, nodes) {
      forall x, y | Active(x, t, nodes) && x.kind.ParallelAll? && Active(y, x, nodes)
        ensures Clear(Shown(nodes, y.id))
      {
        assert Done(x, nodes);
        Unblocked(x, y, nodes);
      }
      forall x | Active(x, t, nodes) ensures Served(x, nodes) {
        assert Done(x, nodes);
      }
    }
    if Finished(t, nodes) {
      forall x | Active(x, t, nodes) ensures Done(x, nodes) {
        assert Served(x, nodes);
        ActiveShaped(x, t, nodes);
        if x.kind.ParallelAll? {
          NothingBlocks(x, t, defs, m, nodes);
        }
      }
    }
  }

  lemma Unblocked(x: Tree, y: Tree, nodes: Nodes)
    requires !Somewhere(Blocker, x, nodes) && Active(y, x, nodes)
    ensures Clear(Shown(nodes, y.id))
  {}

  // --- frames that show the exceptions ---

  function Plain(kind: Kind, children: seq<string>): Definition {
    Definition(kind, children, "", 0)
  }

  function Identified(): Identity {
    Identity("run", "session", seq(64, _ => '0'), 1, 1)
  }

  function FrameShowing(nodes: Nodes): Frame {
    Frame(Identified(), 1, true, true, true, 1, None, nodes, {})
  }

  const LOOK := Reading(0, None)

  /** The tree runs the process of a valid context that accepts the frame as its first. */
  ghost predicate Arises(c: Config, t: Tree, f: Frame) {
    && ValidConfig(c) && t.id == c.root && Shaped(t) && Agrees(t, c.definitions)
    && Accepts(c, FORGETFUL, None, f, LOOK) && f.complete && f.current
  }

  function Bound(id: string): Observation {
    BLANK.(operationId := Some(id))
  }

  const A := Tree("a", Operation, [])
  const B := Tree("b", Operation, [])
  const BEHIND := Tree("p", ParallelAll, [Tree("s", Sequence, [A, B])])
  const BESIDE := Tree("p", ParallelAll, [A, B])

  /** Two operations, one behind or beside the other. */
  function Two(behind: bool): Config {
    var leaves := map["a" := Plain(Operation, []), "b" := Plain(Operation, [])];
    Config(Identified(), "p",
           if behind then leaves["s" := Plain(Sequence, ["a", "b"])]["p" := Plain(ParallelAll, ["s"])]
           else leaves["p" := Plain(ParallelAll, ["a", "b"])])
  }

  function Showing(idA: string, outcomeA: Outcome, idB: string): Nodes {
    map["a" := Bound(idA).(outcome := outcomeA), "b" := Bound(idB)]
  }

  lemma TwoAreAccepted(behind: bool, idA: string, outcomeA: Outcome, idB: string)
    requires idA != "" && idB != ""
    ensures Accepts(Two(behind), FORGETFUL, None, FrameShowing(Showing(idA, outcomeA, idB)), LOOK)
  {
    var nodes, defs := Showing(idA, outcomeA, idB), Two(behind).definitions;
    assert NodeFits(defs, FORGETFUL, "a", nodes["a"]) && NodeFits(defs, FORGETFUL, "b", nodes["b"]);
  }

  lemma TwoAreValid(behind: bool)
    ensures ValidConfig(Two(behind))
  {
    var defs := Two(behind).definitions;
    assert "p" in defs.Keys;
    assert defs.Keys == if behind then {"a", "b", "s", "p"} else {"a", "b", "p"};
  }

  lemma TwoAgree(behind: bool)
    ensures var t := if behind then BEHIND else BESIDE; Shaped(t) && Agrees(t, Two(behind).definitions)
  {
    var defs := Two(behind).definitions;
    assert Agrees(A, defs) && Agrees(B, defs) && Shaped(A) && Shaped(B);
    if behind {
      assert Agrees(BEHIND.children[0], defs) && Shaped(BEHIND.children[0]);
    }
  }

  lemma TwoArise(behind: bool, idA: string, outcomeA: Outcome, idB: string)
    requires idA != "" && idB != ""
    ensures Arises(Two(behind), if behind then BEHIND else BESIDE, FrameShowing(Showing(idA, outcomeA, idB)))
  {
    hide Accepts, ValidConfig, Shaped, Agrees;
    TwoAreAccepted(behind, idA, outcomeA, idB);
    TwoAreValid(behind);
    TwoAgree(behind);
  }

  /** A parallel node reports FAILURE over a live operation that sits behind a failed one. */
  lemma FailureOverUnreachedLiveWork() returns (c: Config, t: Tree, f: Frame)
    ensures Arises(c, t, f) && t.kind.ParallelAll?
    ensures Tick(t, f.nodes, _ => true, 0).status.Failure? && Somewhere(LiveWork, t, f.nodes)
  {
    hide Arises, Tick, Eval, Somewhere, Showing;
    var nodes := Showing("op-a", Failed, "op-b");
    c, t, f := Two(true), BEHIND, FrameShowing(nodes);
    TwoArise(true, "op-a", Failed, "op-b");
    BehindFailed(nodes);
    TickIsEval(t, nodes, _ => true, 0);
  }

  lemma BehindFailed(nodes: Nodes)
    requires nodes == Showing("op-a", Failed, "op-b")
    ensures Eval(BEHIND, nodes).Failure? && Somewhere(LiveWork, BEHIND, nodes)
  {
    var t, s := BEHIND, BEHIND.children[0];
    assert s.children[0] == A && s.children[1] == B;
    assert Open(t, nodes, 0) && Open(s, nodes, 0) && Open(s, nodes, 1);
    assert forall x :: Active(x, A, nodes) ==> x == A;
    assert forall x :: Active(x, B, nodes) ==> x == B;
    assert forall x :: Active(x, s, nodes) ==> x in {A, B, s};
    assert forall x :: Active(x, t, nodes) ==> x in {A, B, s, t};
    assert Active(B, s, nodes) && Active(B, t, nodes);
    assert Eval(A, nodes).Failure? && Eval(s, nodes).Failure?;
    assert SomeChild(t, nodes, Failure) && !SomeChild(t, nodes, Running) && !SomeChild(t, nodes, Fault);
  }

  /** A view that expires in time makes a parallel node report FAILURE over an operation that is live and reached. */
  lemma FailureOverReachedLiveWork() returns (c: Config, t: Tree, f: Frame, x: Tree, u: Clock)
    ensures Arises(c, t, f) && t.kind.ParallelAll?
    ensures Reached(x, t, f.nodes) && Live(x, f.nodes) && Expiring(u) && Tick(t, f.nodes, u, 0).status.Failure?
  {
    hide Arises, Tick, FailedUnblocked;
    var nodes := Showing("op-a", Failed, "op-b");
    c, t, f, x := Two(false), BESIDE, FrameShowing(nodes), B;
    TwoArise(false, "op-a", Failed, "op-b");
    assert t.children[1] == B && Enters(t, nodes, 1) && Reached(B, B, nodes);
    BesideFailed(nodes);
    u := ExpiryAfterBlockerSearch(t, nodes, 0);
  }

  lemma BesideFailed(nodes: Nodes)
    requires nodes == Showing("op-a", Failed, "op-b")
    ensures FailedUnblocked(BESIDE, nodes)
  {
    var t := BESIDE;
    assert t.children[0] == A && t.children[1] == B;
    assert forall x :: Active(x, A, nodes) ==> x == A;
    assert forall x :: Active(x, B, nodes) ==> x == B;
    assert forall x :: Active(x, t, nodes) ==> x in {A, B, t};
    assert Eval(A, nodes).Failure? && Eval(B, nodes).Running?;
  }

  /** A complete frame that binds one operation id at two nodes is accepted, and no complete frame after it is. */
  lemma SharedIdAccepted() returns (c: Config, t: Tree, f: Frame)
    ensures Arises(c, t, f) && !OwnIdsDistinct(f.nodes)
    ensures forall g: Frame, look | g.complete :: !Accepts(c, Remember(FORGETFUL, f.nodes), Some(f), g, look)
  {
    hide Accepts, ValidConfig, Shaped, Agrees, Remember;
    var nodes := Showing("op", NoOutcome, "op");
    c, t, f := Two(false), BESIDE, FrameShowing(nodes);
    TwoArise(false, "op", NoOutcome, "op");
    SharesId(nodes);
    InjectivityKeptIff(c, FORGETFUL, None, f, LOOK);
    forall g: Frame, look | g.complete ensures !Accepts(c, Remember(FORGETFUL, f.nodes), Some(f), g, look) {
      SharedIdRejectsComplete(c, Remember(FORGETFUL, f.nodes), Some(f), g, look);
    }
  }

  lemma SharesId(nodes: Nodes)
    requires nodes == Showing("op", NoOutcome, "op")
    ensures !OwnIdsDistinct(nodes)
  {
    var p := Projection(nodes).operations;
    assert "a" in p && "b" in p && p["a"] == p["b"];
  }
}
