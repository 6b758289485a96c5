/** The state of `Context` and what each of its operations does to it
    (native/executor/runtime.cpp:22-174), on values. */
module ContextState {
  import opened Options
  import opened ExecutorTypes
  import opened Continuity

  /** Frames are compared by pointer in the source; a stamp is that pointer. */
  datatype Stamped = Stamped(stamp: nat, frame: Frame)

  datatype State = State(
    memory: Memory,
    incoming: Option<Stamped>,
    tick: Option<Stamped>,
    queue: seq<Request>,
    requested: set<Key>,
    halted: bool,
    suppress: bool,
    stamps: nat)

  const CAPACITY := 32

  ghost const FRESH_STATE := State(FORGETFUL, None, None, [], {}, false, false, 0)

  function FrameOf(s: Option<Stamped>): Option<Frame> {
    if s.Some? then Some(s.value.frame) else None
  }

  // --- publish ---

  /** The frame already settles the request. */
  predicate Resolves(nodes: map<string, Observation>, r: Request) {
    r.node in nodes &&
    var v := nodes[r.node];
    match r.kind
    case SubmitOperation => v.operationId.Some?
    case ResolveBranch => v.branch.Some?
    case BeginWait => !v.wait.Waiting?
    case RequestHandover => v.released
    case RequestIntervention => v.clearance.Some?
    case PauseExecutor => false
  }

  function Pruned(q: seq<Request>, nodes: map<string, Observation>): seq<Request> {
    if q == [] then []
    else Pruned(q[..|q| - 1], nodes) + (if Resolves(nodes, q[|q| - 1]) then [] else [q[|q| - 1]])
  }

  function PauseRequest(c: Config): Request {
    Request(c.identity, c.root, PauseExecutor, "", 0)
  }

  function LatchPause(c: Config, s: State): State {
    var key := (c.root, PauseExecutor);
    if key in s.requested then s.(halted := true)
    else s.(halted := true, queue := [PauseRequest(c)] + s.queue, requested := s.requested + {key})
  }

  ghost function Accept(s: State, f: Frame): State {
    s.(memory := Remember(s.memory, f.nodes),
       queue := if f.complete then Pruned(s.queue, f.nodes) else s.queue,
       incoming := Some(Stamped(s.stamps, f)),
       stamps := s.stamps + 1)
  }

  function Reject(c: Config, s: State): State {
    var t := if s.incoming.None? then s else
      s.(incoming := Some(Stamped(s.stamps, s.incoming.value.frame.(complete := false, current := false))),
         stamps := s.stamps + 1);
    LatchPause(c, t)
  }

  ghost function Publish(c: Config, s: State, f: Frame, r: Reading): State {
    if Accepts(c, s.memory, FrameOf(s.incoming), f, r) then Accept(s, f) else Reject(c, s)
  }

  // --- ticking ---

  function BeginTick(s: State): State {
    s.(tick := s.incoming, suppress := false)
  }

  predicate Usable(tick: Option<Stamped>, r: Reading) {
    tick.Some? && tick.value.frame.complete && tick.value.frame.current && Fresh(tick.value.frame, r)
  }

  /** Every gate of `enqueue` before the duplicate and capacity checks. */
  predicate Admits(s: State, node: string, kind: RequestKind, usable: bool) {
    && !(s.suppress && StartsWork(kind))
    && usable && s.tick.Some?
    && s.tick.value.frame.submissionAuthorized && node in s.tick.value.frame.eligible
    && !s.halted
    && s.incoming.Some? && s.incoming.value.stamp == s.tick.value.stamp
    && s.incoming.value.frame.current && s.incoming.value.frame.submissionAuthorized
  }

  function NewRequest(c: Config, node: string, kind: RequestKind): Request
    requires node in c.definitions
  {
    Request(c.identity, node, kind, c.definitions[node].argument, c.definitions[node].timeoutNs)
  }

  function Enqueue(c: Config, s: State, node: string, kind: RequestKind, usable: bool): State {
    if node in c.definitions && Admits(s, node, kind, usable) && (node, kind) !in s.requested && |s.queue| < CAPACITY
    then s.(queue := s.queue + [NewRequest(c, node, kind)], requested := s.requested + {(node, kind)})
    else s
  }

  // --- draining ---

  predicate Deliverable(s: State, r: Request, look: Reading) {
    || r.kind.PauseExecutor?
    || (&& !s.halted
        && s.incoming.Some?
        && s.incoming.value.frame.complete && s.incoming.value.frame.current
        && s.incoming.value.frame.submissionAuthorized
        && Fresh(s.incoming.value.frame, look)
        && r.node in s.incoming.value.frame.eligible)
  }

  /** Entry `i` of the queue is examined at look `i`. */
  ghost function Flags(s: State, clock: nat -> Reading): (d: seq<bool>)
    ensures |d| == |s.queue|
  {
    seq(|s.queue|, i requires 0 <= i < |s.queue| => Deliverable(s, s.queue[i], clock(i)))
  }

  /** Of the first `c` entries, those flagged `want`, in order. */
  ghost function Chosen(q: seq<Request>, d: seq<bool>, c: nat, want: bool): seq<Request>
    requires c <= |q| == |d|
  {
    if c == 0 then []
    else Chosen(q, d, c - 1, want) + (if d[c - 1] == want then [q[c - 1]] else [])
  }

  /** Where a drain of at most `limit` entries stops looking. */
  ghost function Cut(q: seq<Request>, d: seq<bool>, c: nat, limit: nat): (r: nat)
    requires c <= |q| == |d|
    ensures c <= r <= |q|
    ensures r == |q| || |Chosen(q, d, r, true)| >= limit
    decreases |q| - c
  {
    if c == |q| || |Chosen(q, d, c, true)| >= limit then c else Cut(q, d, c + 1, limit)
  }

  ghost function Taken(s: State, limit: nat, clock: nat -> Reading): seq<Request> {
    var d := Flags(s, clock);
    Chosen(s.queue, d, Cut(s.queue, d, 0, limit), true)
  }

  /** Entries not looked at come first, skipped ones after them. */
  ghost function Drained(s: State, limit: nat, clock: nat -> Reading): State {
    var d := Flags(s, clock);
    var c := Cut(s.queue, d, 0, limit);
    s.(queue := s.queue[c..] + Chosen(s.queue, d, c, false))
  }
}
