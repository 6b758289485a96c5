/** Values exchanged by the behaviour-tree executor (native/executor/runtime.hpp). */
module ExecutorTypes {
  import opened Options

  datatype Kind = Sequence | ParallelAll | Branch | Operation | Wait | Intervention

  datatype Outcome = NoOutcome | Succeeded | Failed | Canceled | NotExecuted | Unresolved

  datatype WaitState = Waiting | Satisfied | TimedOut

  datatype Definition = Definition(kind: Kind, children: seq<string>, argument: string, timeoutNs: nat)

  datatype Identity = Identity(run: string, executorSession: string, resolvedDigest: string, visit: nat, epoch: nat)

  datatype Observation = Observation(
    operationId: Option<string>,
    outcome: Outcome,
    unknown: bool,
    integrityValid: bool,
    released: bool,
    branch: Option<bool>,
    decisionId: Option<string>,
    wait: WaitState,
    clearance: Option<string>)

  /** What the executor reads for a node the frame does not mention. */
  const BLANK := Observation(None, NoOutcome, false, true, false, None, None, Waiting, None)

  datatype ClockSample = ClockSample(clockId: string, ticksNs: nat)

  datatype SourceDeadline = SourceDeadline(clockId: string, checkedAtNs: nat, validUntilNs: nat)

  /** One look at the clocks: the steady clock and the source clock, which is
      None when there is no adapter or the adapter throws. */
  datatype Reading = Reading(steady: nat, source: Option<ClockSample>)

  datatype Frame = Frame(
    identity: Identity,
    revision: nat,
    complete: bool,
    current: bool,
    submissionAuthorized: bool,
    validUntil: nat,
    deadline: Option<SourceDeadline>,
    nodes: map<string, Observation>,
    eligible: set<string>)

  datatype RequestKind =
    | SubmitOperation
    | ResolveBranch
    | BeginWait
    | RequestIntervention
    | RequestHandover
    | PauseExecutor

  datatype Request = Request(identity: Identity, node: string, kind: RequestKind, argument: string, timeoutNs: nat)

  type Key = (string, RequestKind)

  function KeyOf(r: Request): Key {
    (r.node, r.kind)
  }

  /** The kinds a suppressed tick may not propose. */
  predicate StartsWork(k: RequestKind) {
    k.SubmitOperation? || k.ResolveBranch? || k.BeginWait?
  }

  /** What a node shows in a frame. */
  function Shown(nodes: map<string, Observation>, id: string): Observation {
    if id in nodes then nodes[id] else BLANK
  }
}
