/** The view can expire in the middle of a tick.  `has_live_work` then sees nothing, so a parallel
    node can report FAILURE over live work; this module says exactly when. */
module TickExpiry {
  import opened ExecutorTypes
  import opened BehaviorTree
  import opened TickLaws
  import opened TickOutcomes

  /** Once unusable, the view stays unusable for the rest of the tick. */
  ghost predicate Expiring(u: Clock) {
    forall i: nat, j: nat | i <= j && u(j) :: u(i)
  }

  ghost predicate Agree(u: Clock, w: Clock, at: nat, end: nat) {
    forall k: nat | at <= k < end :: u(k) == w(k)
  }

  // --- a computation depends only on the looks it makes ---

  lemma {:induction false} SearchReads(p: Probe, t: Tree, nodes: Nodes, u: Clock, w: Clock, at: nat)
    requires Agree(u, w, at, Search(p, t, nodes, u, at).1)
    ensures Search(p, t, nodes, w, at) == Search(p, t, nodes, u, at)
    decreases t, |t.children| + 1
  {
    var v := Seen(nodes, t.id, u(at));
    assert u(at) == w(at);
    if !Hit(p, t.kind, v) {
      SearchFromReads(p, t, Lo(t, v), Hi(t, v), nodes, u, w, at + 1);
    }
  }

  lemma {:induction false} SearchFromReads(
      p: Probe, t: Tree, i: nat, hi: nat, nodes: Nodes, u: Clock, w: Clock, at: nat)
    requires i <= hi <= |t.children|
    requires Agree(u, w, at, SearchFrom(p, t, i, hi, nodes, u, at).1)
    ensures SearchFrom(p, t, i, hi, nodes, w, at) == SearchFrom(p, t, i, hi, nodes, u, at)
    decreases t, hi - i
  {
    if i < hi {
      SearchReads(p, t.children[i], nodes, u, w, at);
      var (found, next) := Search(p, t.children[i], nodes, u, at);
      if !found {
        SearchFromReads(p, t, i + 1, hi, nodes, u, w, next);
      }
    }
  }

  lemma {:induction false} TickReads(t: Tree, nodes: Nodes, u: Clock, w: Clock, at: nat)
    requires Agree(u, w, at, Tick(t, nodes, u, at).at)
    ensures Tick(t, nodes, w, at) == Tick(t, nodes, u, at)
    decreases t, |t.children| + 1, 1
  {
    assert u(at) == w(at);
    match t.kind {
      case Operation | Wait | Intervention => assert u(at + 1) == w(at + 1);
      case Branch =>
        if u(at) {
          assert u(at + 1) == w(at + 1);
          var v := Seen(nodes, t.id, u(at + 1));
          if Clear(v) && v.branch.Some? && |t.children| == 2 {
            TickReads(t.children[Lo(t, v)], nodes, u, w, at + 2);
          }
        }
      case Sequence =>
        if u(at) && t.children != [] {
          SequenceReads(t, 0, nodes, u, w, at + 1);
        }
      case ParallelAll =>
        ParallelReads(t, nodes, u, w, at);
    }
  }

  lemma {:induction false} ParallelReads(t: Tree, nodes: Nodes, u: Clock, w: Clock, at: nat)
    requires t.kind.ParallelAll?
    requires Agree(u, w, at, Tick(t, nodes, u, at).at)
    ensures Tick(t, nodes, w, at) == Tick(t, nodes, u, at)
    decreases t, |t.children| + 1, 0
  {
    hide Search, TickAll;
    assert u(at) == w(at);
    if u(at) && t.children != [] {
      SearchReads(Problem, t, nodes, u, w, at + 1);
      var a := Search(Problem, t, nodes, u, at + 1).1;
      AllReads(t, 0, nodes, u, w, a, false, false);
      var all := TickAll(t, 0, nodes, u, a, false, false);
      if !all.fault {
        SearchReads(Blocker, t, nodes, u, w, all.at);
        var (blocked, b) := Search(Blocker, t, nodes, u, all.at);
        if !blocked && all.failed {
          SearchReads(LiveWork, t, nodes, u, w, b);
        }
      }
    }
  }

  lemma {:induction false} SequenceReads(t: Tree, i: nat, nodes: Nodes, u: Clock, w: Clock, at: nat)
    requires i <= |t.children|
    requires Agree(u, w, at, TickSequence(t, i, nodes, u, at).at)
    ensures TickSequence(t, i, nodes, w, at) == TickSequence(t, i, nodes, u, at)
    decreases t, |t.children| - i
  {
    if i < |t.children| {
      TickReads(t.children[i], nodes, u, w, at);
      var o := Tick(t.children[i], nodes, u, at);
      if o.status.Success? {
        SequenceReads(t, i + 1, nodes, u, w, o.at);
      }
    }
  }

  lemma {:induction false} AllReads(
      t: Tree, i: nat, nodes: Nodes, u: Clock, w: Clock, at: nat, running: bool, failed: bool)
    requires i <= |t.children|
    requires Agree(u, w, at, TickAll(t, i, nodes, u, at, running, failed).at)
    ensures TickAll(t, i, nodes, w, at, running, failed) == TickAll(t, i, nodes, u, at, running, failed)
    decreases t, |t.children| - i
  {
    if i < |t.children| {
      TickReads(t.children[i], nodes, u, w, at);
      var o := Tick(t.children[i], nodes, u, at);
      if !o.status.Fault? {
        AllReads(t, i + 1, nodes, u, w, o.at, running || o.status.Running?, failed || o.status.Failure?);
      }
    }
  }

  /** On an expired view the search for live work finds none. */
  lemma {:induction false} LiveSearchBlind(t: Tree, nodes: Nodes, u: Clock, at: nat)
    requires forall k: nat | at <= k :: !u(k)
    ensures !Search(LiveWork, t, nodes, u, at).0
    decreases t, |t.children| + 1
  {
    var v := Seen(nodes, t.id, u(at));
    LiveSearchFromBlind(t, Lo(t, v), Hi(t, v), nodes, u, at + 1);
  }

  lemma {:induction false} LiveSearchFromBlind(t: Tree, i: nat, hi: nat, nodes: Nodes, u: Clock, at: nat)
    requires i <= hi <= |t.children|
    requires forall k: nat | at <= k :: !u(k)
    ensures !SearchFrom(LiveWork, t, i, hi, nodes, u, at).0
    decreases t, hi - i
  {
    if i < hi {
      LiveSearchBlind(t.children[i], nodes, u, at);
      LiveSearchFromBlind(t, i + 1, hi, nodes, u, Search(LiveWork, t.children[i], nodes, u, at).1);
    }
  }

  // --- the race ---

  /** Some expiry time makes the tick that begins at look `at` report FAILURE. */
  ghost predicate FailsForSomeExpiry(t: Tree, nodes: Nodes, at: nat) {
    exists u: Clock :: Expiring(u) && Tick(t, nodes, u, at).status.Failure?
  }

  /** The frame a failing parallel node needs, live work or not. */
  ghost predicate FailedUnblocked(t: Tree, nodes: Nodes) {
    SomeChild(t, nodes, Failure) && !SomeChild(t, nodes, Fault) && !Somewhere(Blocker, t, nodes)
  }

  lemma {:induction false} FailureNeedsFailedUnblocked(t: Tree, nodes: Nodes, u: Clock, at: nat)
    requires t.kind.ParallelAll? && Expiring(u)
    requires Tick(t, nodes, u, at).status.Failure?
    ensures FailedUnblocked(t, nodes)
  {
    var a := Search(Problem, t, nodes, u, at + 1).1;
    var all := TickAll(t, 0, nodes, u, a, false, false);
    SearchNoMiss(Blocker, t, nodes, u, all.at);
    assert u(all.at);
    assert Good(u, a, all.at);
    TickAllIsEval(t, 0, nodes, u, a, false, false);
  }

  /** Expiry right after the blocker search turns a failed child into FAILURE. */
  lemma {:induction false} ExpiryAfterBlockerSearch(t: Tree, nodes: Nodes, at: nat) returns (u: Clock)
    requires t.kind.ParallelAll? && FailedUnblocked(t, nodes)
    ensures Expiring(u) && Tick(t, nodes, u, at).status.Failure?
  {
    var w: Clock := _ => true;
    var a := Search(Problem, t, nodes, w, at + 1).1;
    var all := TickAll(t, 0, nodes, w, a, false, false);
    TickAllIsEval(t, 0, nodes, w, a, false, false);
    SearchExact(Blocker, t, nodes, w, all.at);
    var b := Search(Blocker, t, nodes, w, all.at).1;
    u := k => k < b;
    SearchReads(Problem, t, nodes, w, u, at + 1);
    AllReads(t, 0, nodes, w, u, a, false, false);
    SearchReads(Blocker, t, nodes, w, u, all.at);
    LiveSearchBlind(t, nodes, u, b);
  }

  /** Wherever in a tick a parallel node is reached, it can report FAILURE at some expiry time exactly when
      a child has failed, none faults and nothing blocks, so live work does not protect it. */
  lemma {:induction false} FailureOverLiveWorkIff(t: Tree, nodes: Nodes, at: nat)
    requires t.kind.ParallelAll?
    ensures FailsForSomeExpiry(t, nodes, at) <==> FailedUnblocked(t, nodes)
  {
    hide FailedUnblocked, Tick;
    if FailsForSomeExpiry(t, nodes, at) {
      var u: Clock :| Expiring(u) && Tick(t, nodes, u, at).status.Failure?;
      FailureNeedsFailedUnblocked(t, nodes, u, at);
    }
    if FailedUnblocked(t, nodes) {
      var u := ExpiryAfterBlockerSearch(t, nodes, at);
    }
  }

  /** Over a live operation the tick has reached, nothing but expiry produces FAILURE. */
  lemma {:induction false} OnlyExpiryHidesReachedWork(x: Tree, t: Tree, nodes: Nodes, u: Clock, at: nat)
    requires Reached(x, t, nodes) && Live(x, nodes)
    requires Tick(t, nodes, u, at).status.Failure?
    ensures exists k: nat :: at <= k < Tick(t, nodes, u, at).at && !u(k)
  {
    ReachedLiveKeepsRunning(x, t, nodes);
    if Good(u, at, Tick(t, nodes, u, at).at) {
      TickIsEval(t, nodes, u, at);
    }
  }
}
