/** The at-most-once execution journal of one operation directory
    (deployment/local-skills/host_runner.py), as a step machine: any number of callers,
    process deaths at any point, and power losses that may drop what was not yet synced. */
module HostJournal {
  import opened Options

  /** A validated request; two requests are the same when their encodings are. */
  datatype Request = Request(invocation: string, intent: string, environment: string, session: string, input: string)

  datatype Result = Returned(output: string) | Raised(error: string)

  /** The receipt carries the identity of its request. */
  datatype Receipt = Receipt(request: Request, result: Result)

  /** `publish` writes and syncs a temporary file, links it, then syncs the directory:
      a linked file is whole but may vanish with the power until the directory is synced. */
  datatype File<+T> = Absent | Linked(value: T) | Synced(value: T) {
    predicate Exists() {
      !Absent?
    }
  }

  /** `directory` is the operation directory's own entry.  `publish` syncs what is inside the directory,
      and nothing syncs the journal directory above it, so the entry stays linked until the system
      happens to write it out, and takes everything inside with it when it is lost. */
  datatype Disk = Disk(directory: File<()>, marker: File<Request>, receipt: File<Receipt>)

  const BARE := Disk(Absent, Absent, Absent)

  datatype Answer = NotObserved | Unknown | Found(receipt: Receipt) | Refused

  datatype Phase =
    | Arriving                // request validated, directory not made yet
    | Opened                  // lock file open, lock not tried
    | Owner                   // lock held, marker not looked at
    | Cleared                 // no marker seen; environment checks run
    | MarkerLinked
    | Armed                   // marker synced, second deadline check to come
    | Running                 // module code has started
    | Finished(receipt: Receipt)
    | ReceiptLinked(receipt: Receipt)
    | Reporting(receipt: Receipt)   // receipt synced, about to be returned by its own caller
    | LookMarker              // inside `stored`
    | LookReceipt
    | Answered(answer: Answer)

  datatype Action = Execute | Lookup

  /** `since` is the disk as it was when the call began. */
  datatype Call = Call(action: Action, request: Request, phase: Phase, since: Disk)

  datatype Report = Report(request: Request, since: Disk, until: Disk, answer: Answer)

  /** What an execute call returned; `own` is the receipt of the caller that got to run the skill. */
  datatype Execution =
    Execution(request: Request, since: Disk, until: Disk, answer: Answer, own: Option<Receipt>)

  /** `starts` is every start there ever was, `standing` those since the directory was last lost. */
  datatype State = State(
    disk: Disk,
    lock: Option<nat>,
    calls: map<nat, Call>,
    starts: seq<Request>,
    standing: seq<Request>,
    lookups: seq<Report>,
    executions: seq<Execution>)

  const EMPTY := State(BARE, None, map[], [], [], [], [])

  datatype Event =
    | Begin(pid: nat, action: Action, request: Request)
    | Advance(pid: nat, choice: Choice)
    | Die(pid: nat)                                   // a crash, or an exception leaving `handle`
    | PowerLoss(keepDirectory: bool, keepMarker: bool, keepReceipt: bool)

  /** What the environment decides at a step: whether checks pass, and how the skill ends. */
  datatype Choice = Choice(passes: bool, result: Result)

  /** A file that was linked but not synced survives a power loss or does not. */
  function Settle<T>(f: File<T>, keep: bool): File<T> {
    if f.Linked? then (if keep then Synced(f.value) else Absent) else f
  }

  /** `fsync` of the directory, which covers its files and not its own entry. */
  function Flushed(d: Disk): Disk {
    d.(marker := Settle(d.marker, true), receipt := Settle(d.receipt, true))
  }

  predicate DropsDirectory(s: State, e: Event) {
    e.PowerLoss? && s.disk.directory.Linked? && !e.keepDirectory
  }

  function AfterLoss(d: Disk, e: Event): Disk
    requires e.PowerLoss?
  {
    if d.directory.Linked? && !e.keepDirectory then BARE
    else Disk(Settle(d.directory, true), Settle(d.marker, e.keepMarker), Settle(d.receipt, e.keepReceipt))
  }

  function Moved(s: State, pid: nat, phase: Phase): State
    requires pid in s.calls
  {
    s.(calls := s.calls[pid := s.calls[pid].(phase := phase)])
  }

  function Ended(s: State, pid: nat): State {
    s.(calls := map p | p in s.calls && p != pid :: s.calls[p], lock := if s.lock == Some(pid) then None else s.lock)
  }

  /** The next instruction of one caller. */
  function Advanced(s: State, pid: nat, choice: Choice): State
    requires pid in s.calls
  {
    var call := s.calls[pid];
    var q := call.request;
    match call.phase
    case Arriving =>
      var made := if s.disk.directory.Exists() then s.disk else s.disk.(directory := Linked(()));
      Moved(s.(disk := made), pid, Opened)
    case Opened =>
      if s.lock.None? then Moved(s.(lock := Some(pid)), pid, Owner) else Moved(s, pid, LookMarker)
    case Owner => Moved(s, pid, if s.disk.marker.Exists() then LookMarker else Cleared)
    case Cleared =>
      if !choice.passes || s.disk.marker.Exists() then Ended(s, pid)
      else Moved(s.(disk := s.disk.(marker := Linked(q))), pid, MarkerLinked)
    case MarkerLinked => Moved(s.(disk := Flushed(s.disk)), pid, Armed)
    case Armed =>
      if choice.passes then Moved(s.(starts := s.starts + [q], standing := s.standing + [q]), pid, Running)
      else Moved(s, pid, Finished(Receipt(q, Raised("TimeoutError"))))
    case Running => Moved(s, pid, Finished(Receipt(q, choice.result)))
    case Finished(r) =>
      if s.disk.receipt.Exists() then Ended(s, pid)
      else Moved(s.(disk := s.disk.(receipt := Linked(r))), pid, ReceiptLinked(r))
    case ReceiptLinked(r) => Moved(s.(disk := Flushed(s.disk)), pid, Reporting(r))
    case Reporting(r) => Executed(Ended(s, pid), Execution(q, call.since, s.disk, Found(r), Some(r)))
    case LookMarker =>
      if !s.disk.marker.Exists() then Moved(s, pid, Answered(if call.action.Lookup? then NotObserved else Unknown))
      else if s.disk.marker.value != q then Moved(s, pid, Answered(Refused))
      else Moved(s, pid, LookReceipt)
    case LookReceipt =>
      if !s.disk.receipt.Exists() then Moved(s, pid, Answered(Unknown))
      else if s.disk.receipt.value.request != q then Moved(s, pid, Answered(Refused))
      else Moved(s, pid, Answered(Found(s.disk.receipt.value)))
    case Answered(a) =>
      var e := Ended(s, pid);
      if call.action.Lookup? then e.(lookups := e.lookups + [Report(q, call.since, s.disk, a)])
      else Executed(e, Execution(q, call.since, s.disk, a, None))
  }

  function Executed(s: State, e: Execution): State {
    s.(executions := s.executions + [e])
  }

  function Next(s: State, e: Event): State {
    match e
    case Begin(pid, action, request) =>
      if pid in s.calls then s
      else s.(calls := s.calls[pid := Call(action, request, if action.Execute? then Arriving else LookMarker, s.disk)])
    case Advance(pid, choice) => if pid in s.calls then Advanced(s, pid, choice) else s
    case Die(pid) => Ended(s, pid)
    case PowerLoss(_, _, _) =>
      State(AfterLoss(s.disk, e), None, map[], s.starts, if DropsDirectory(s, e) then [] else s.standing, s.lookups,
            s.executions)
  }

  function Run(s: State, es: seq<Event>): State {
    if es == [] then s else Next(Run(s, es[..|es| - 1]), es[|es| - 1])
  }

  // --- the invariant ---

  /** Phases between taking the lock and letting it go. */
  predicate Critical(p: Phase) {
    p.Owner? || p.Cleared? || p.MarkerLinked? || p.Armed? || p.Running? || p.Finished? || p.ReceiptLinked?
    || p.Reporting?
  }

  /** What the disk and the log look like to a caller that has made the directory. */
  ghost predicate Sees(s: State, call: Call) {
    var q := call.request;
    && (call.phase.Opened? || Critical(call.phase) ==> s.disk.directory.Exists())
    && match call.phase
       case Cleared => s.disk.marker.Absent? && s.disk.receipt.Absent? && s.standing == []
       case MarkerLinked => s.disk.marker == Linked(q) && s.disk.receipt.Absent? && s.standing == []
       case Armed => s.disk.marker == Synced(q) && s.disk.receipt.Absent? && s.standing == []
       case Running => s.disk.marker == Synced(q) && s.disk.receipt.Absent? && s.standing == [q]
       case Finished(r) => s.disk.marker == Synced(q) && s.disk.receipt.Absent? && r.request == q
       case ReceiptLinked(r) => s.disk.marker == Synced(q) && s.disk.receipt == Linked(r) && r.request == q
       case Reporting(r) => s.disk.marker == Synced(q) && s.disk.receipt == Synced(r) && r.request == q
       case LookReceipt => s.disk.marker.Exists() && s.disk.marker.value == q
       case _ => true
  }

  /** The durable facts. */
  ghost predicate Coherent(s: State) {
    && |s.standing| <= 1
    && (s.standing != [] ==> s.disk.marker == Synced(s.standing[0]))
    && (s.disk.marker.Exists() ==> s.disk.directory.Exists())
    && (s.disk.receipt.Exists() ==> s.disk.marker.Synced? && s.disk.receipt.value.request == s.disk.marker.value)
  }

  /** `b` shows everything `a` showed, unchanged. */
  ghost predicate Extends(a: Disk, b: Disk) {
    && (a.marker.Exists() ==> b.marker.Exists() && b.marker.value == a.marker.value)
    && (a.receipt.Exists() ==> b.receipt.Exists() && b.receipt.value == a.receipt.value)
  }

  /** What a lookup run to its end on a still disk would answer. */
  function Outlook(d: Disk, q: Request): Answer {
    if !d.marker.Exists() then NotObserved
    else if d.marker.value != q then Refused
    else if !d.receipt.Exists() then Unknown
    else if d.receipt.value.request != q then Refused
    else Found(d.receipt.value)
  }

  /** Answers only move from NOT_OBSERVED to UNKNOWN to the receipt. */
  predicate NoLater(a: Answer, b: Answer) {
    match a
    case NotObserved => true
    case Unknown => b.Unknown? || b.Found?
    case Found(_) => b == a
    case Refused => b.Refused?
  }

  ghost predicate Truthful(r: Report) {
    NoLater(Outlook(r.since, r.request), r.answer) && NoLater(r.answer, Outlook(r.until, r.request))
  }

  /** An execute call is never told that nothing was observed; it is given a receipt only if that is the stored
      receipt of its request, refused only if another request's marker is stored, and told no less than
      a lookup would have said when it began.  The caller that ran
      the skill is given its own receipt, synced under its own synced marker. */
  ghost predicate Honest(e: Execution) {
    && !e.answer.NotObserved? && NoLater(Outlook(e.since, e.request), e.answer)
    && (e.answer.Found? ==>
          && e.until.receipt.Exists() && e.until.receipt.value == e.answer.receipt
          && e.answer.receipt.request == e.request)
    && (e.answer.Refused? ==> e.until.marker.Exists() && e.until.marker.value != e.request)
    && (e.own.Some? ==>
          && e.answer == Found(e.own.value)
          && e.until.receipt == Synced(e.own.value) && e.until.marker == Synced(e.request))
  }

  /** A call that has its answer has a truthful one. */
  ghost predicate OnTrack(s: State, call: Call) {
    && Extends(call.since, s.disk)
    && Sees(s, call)
    && (call.action.Execute? && call.phase.Answered? ==>
          Honest(Execution(call.request, call.since, s.disk, call.phase.answer, None)))
    && (call.action.Lookup? ==>
          && !Critical(call.phase) && !call.phase.Arriving? && !call.phase.Opened?
          && (call.phase.Answered? ==> Truthful(Report(call.request, call.since, s.disk, call.phase.answer))))
  }

  ghost predicate Inv(s: State) {
    && Coherent(s)
    && (forall p | p in s.calls :: OnTrack(s, s.calls[p]))
    && (forall p | p in s.calls && Critical(s.calls[p].phase) :: s.lock == Some(p))
    && (forall i | 0 <= i < |s.lookups| :: Truthful(s.lookups[i]))
    && (forall i | 0 <= i < |s.executions| :: Honest(s.executions[i]))
  }

  // --- each event keeps it ---

  lemma ExtendsKeepsOutlook(a: Disk, b: Disk, q: Request)
    requires Extends(a, b)
    requires b.receipt.Exists() ==> b.marker.Exists() && b.receipt.value.request == b.marker.value
    ensures NoLater(Outlook(a, q), Outlook(b, q))
  {}

  /** One caller's step adds to the disk and never takes away. */
  lemma AdvanceExtends(s: State, pid: nat, choice: Choice)
    requires Inv(s) && pid in s.calls
    ensures Extends(s.disk, Advanced(s, pid, choice).disk)
    ensures s.disk.directory.Exists() ==> Advanced(s, pid, choice).disk.directory.Exists()
    ensures Coherent(Advanced(s, pid, choice))
  {
    assert OnTrack(s, s.calls[pid]);
  }

  /** Callers outside the critical section are not disturbed by a growing disk. */
  lemma OthersStayOnTrack(s: State, t: State, call: Call)
    requires Coherent(t) && OnTrack(s, call) && Extends(s.disk, t.disk)
    requires s.disk.directory.Exists() ==> t.disk.directory.Exists()
    requires Critical(call.phase) ==> t.disk == s.disk && t.standing == s.standing
    ensures OnTrack(t, call)
  {
    if call.action.Lookup? && call.phase.Answered? {
      ExtendsKeepsOutlook(s.disk, t.disk, call.request);
    }
  }

  /** The caller that moved is on track in its new phase. */
  lemma MoverOnTrack(s: State, pid: nat, choice: Choice)
    requires Inv(s) && pid in s.calls
    ensures var t := Advanced(s, pid, choice);
            pid in t.calls ==> OnTrack(t, t.calls[pid]) && (Critical(t.calls[pid].phase) ==> t.lock == Some(pid))
  {
    hide OnTrack, Advanced;
    if s.calls[pid].phase.LookMarker? || s.calls[pid].phase.LookReceipt? {
      AnswerOnTrack(s, pid, choice);
    } else {
      WorkOnTrack(s, pid, choice);
    }
  }

  /** An executing caller stays an executing caller, and works under its lock. */
  lemma WorkGoesOn(s: State, pid: nat, choice: Choice)
    requires Inv(s) && pid in s.calls && !s.calls[pid].phase.LookMarker? && !s.calls[pid].phase.LookReceipt?
    ensures var t := Advanced(s, pid, choice);
            pid in t.calls ==>
              && t.calls[pid] == s.calls[pid].(phase := t.calls[pid].phase) && s.calls[pid].action.Execute?
              && !t.calls[pid].phase.Answered?
              && (Critical(t.calls[pid].phase) ==> t.lock == Some(pid))
  {
    hide Truthful, Honest, Extends, Sees, Coherent;
    assert OnTrack(s, s.calls[pid]);
  }

  lemma WorkOnTrack(s: State, pid: nat, choice: Choice)
    requires Inv(s) && pid in s.calls && !s.calls[pid].phase.LookMarker? && !s.calls[pid].phase.LookReceipt?
    ensures var t := Advanced(s, pid, choice);
            pid in t.calls ==> OnTrack(t, t.calls[pid]) && (Critical(t.calls[pid].phase) ==> t.lock == Some(pid))
  {
    hide Truthful, Extends, Coherent, Sees, Advanced, Critical;
    assert OnTrack(s, s.calls[pid]);
    AdvanceExtends(s, pid, choice);
    ExtendsTransitive(s.calls[pid].since, s.disk, Advanced(s, pid, choice).disk);
    WorkGoesOn(s, pid, choice);
    if s.calls[pid].phase.Armed? || s.calls[pid].phase.Running? || s.calls[pid].phase.Finished? {
      LateWorkSees(s, pid, choice);
    } else {
      EarlyWorkSees(s, pid, choice);
    }
  }

  lemma ExtendsTransitive(a: Disk, b: Disk, c: Disk)
    requires Extends(a, b) && Extends(b, c)
    ensures Extends(a, c)
  {}

  lemma EarlyWorkSees(s: State, pid: nat, choice: Choice)
    requires Inv(s) && pid in s.calls && !s.calls[pid].phase.LookMarker? && !s.calls[pid].phase.LookReceipt?
    requires !s.calls[pid].phase.Armed? && !s.calls[pid].phase.Running? && !s.calls[pid].phase.Finished?
    ensures var t := Advanced(s, pid, choice); pid in t.calls ==> Sees(t, t.calls[pid])
  {
    hide Truthful, Honest, Extends, Outlook, NoLater;
    assert OnTrack(s, s.calls[pid]);
  }

  lemma LateWorkSees(s: State, pid: nat, choice: Choice)
    requires Inv(s) && pid in s.calls
    requires s.calls[pid].phase.Armed? || s.calls[pid].phase.Running? || s.calls[pid].phase.Finished?
    ensures var t := Advanced(s, pid, choice); pid in t.calls ==> Sees(t, t.calls[pid])
  {
    hide Truthful, Honest, Extends, Outlook, NoLater;
    assert OnTrack(s, s.calls[pid]);
  }

  /** What `stored` answers is truthful when it is given. */
  lemma AnswerOnTrack(s: State, pid: nat, choice: Choice)
    requires Inv(s) && pid in s.calls && (s.calls[pid].phase.LookMarker? || s.calls[pid].phase.LookReceipt?)
    ensures var t := Advanced(s, pid, choice);
            pid in t.calls && OnTrack(t, t.calls[pid]) && !Critical(t.calls[pid].phase)
  {
    var call := s.calls[pid];
    assert OnTrack(s, call);
    ExtendsKeepsOutlook(call.since, s.disk, call.request);
  }

  /** While another caller is in the critical section, a step changes neither disk nor log. */
  lemma OthersIdle(s: State, pid: nat, choice: Choice, p: nat)
    requires Inv(s) && pid in s.calls && p != pid && s.lock == Some(p)
    requires p in s.calls && Critical(s.calls[p].phase)
    ensures var t := Advanced(s, pid, choice); t.disk == s.disk && t.standing == s.standing && t.lock == s.lock
  {
    assert OnTrack(s, s.calls[p]);
  }

  lemma OthersUnmoved(s: State, pid: nat, choice: Choice, p: nat)
    requires pid in s.calls && p != pid
    ensures p in Advanced(s, pid, choice).calls <==> p in s.calls
    ensures p in s.calls ==> Advanced(s, pid, choice).calls[p] == s.calls[p]
  {}

  lemma LookupsGrow(s: State, pid: nat, choice: Choice)
    requires Inv(s) && pid in s.calls
    ensures forall i | 0 <= i < |Advanced(s, pid, choice).lookups| :: Truthful(Advanced(s, pid, choice).lookups[i])
    ensures forall i | 0 <= i < |Advanced(s, pid, choice).executions| :: Honest(Advanced(s, pid, choice).executions[i])
  {
    assert OnTrack(s, s.calls[pid]);
  }

  lemma AdvanceKeeps(s: State, pid: nat, choice: Choice)
    requires Inv(s) && pid in s.calls
    ensures Inv(Advanced(s, pid, choice))
  {
    hide OnTrack, Extends, Coherent, Truthful, Honest, Advanced;
    var t := Advanced(s, pid, choice);
    var call := s.calls[pid];
    assert OnTrack(s, call);
    AdvanceExtends(s, pid, choice);
    MoverOnTrack(s, pid, choice);
    LookupsGrow(s, pid, choice);
    forall p | p in t.calls && p != pid
      ensures OnTrack(t, t.calls[p]) && (Critical(t.calls[p].phase) ==> t.lock == Some(p))
    {
      OthersUnmoved(s, pid, choice, p);
      assert OnTrack(s, s.calls[p]);
      if Critical(s.calls[p].phase) {
        assert s.lock == Some(p);
        OthersIdle(s, pid, choice, p);
      }
      OthersStayOnTrack(s, t, s.calls[p]);
    }
  }

  lemma EventKeeps(s: State, e: Event)
    requires Inv(s)
    ensures Inv(Next(s, e))
  {
    match e {
      case Begin(pid, _, _) =>
        var t := Next(s, e);
        forall p | p in t.calls ensures OnTrack(t, t.calls[p]) {
          if p in s.calls {
            assert OnTrack(s, s.calls[p]);
          }
        }
      case Advance(pid, choice) => if pid in s.calls { AdvanceKeeps(s, pid, choice); }
      case Die(pid) =>
        var t := Next(s, e);
        forall p | p in t.calls ensures OnTrack(t, t.calls[p]) && (Critical(t.calls[p].phase) ==> t.lock == Some(p)) {
          assert OnTrack(s, s.calls[p]);
        }
      case PowerLoss(_, _, _) =>
    }
  }

  lemma {:induction false} RunKeeps(s: State, es: seq<Event>)
    requires Inv(s)
    ensures Inv(Run(s, es))
    decreases |es|
  {
    if es != [] {
      RunKeeps(s, es[..|es| - 1]);
      EventKeeps(Run(s, es[..|es| - 1]), es[|es| - 1]);
    }
  }

  // --- runs ---

  lemma {:induction false} RunJoins(s: State, es: seq<Event>, fs: seq<Event>)
    ensures Run(s, es + fs) == Run(Run(s, es), fs)
    decreases |fs|
  {
    if fs == [] {
      assert es + fs == es;
    } else {
      assert (es + fs)[..|es + fs| - 1] == es + fs[..|fs| - 1];
      RunJoins(s, es, fs[..|fs| - 1]);
    }
  }

  /** No power loss of the run takes the directory away. */
  ghost predicate NeverDrops(s: State, es: seq<Event>) {
    es != [] ==> NeverDrops(s, es[..|es| - 1]) && !DropsDirectory(Run(s, es[..|es| - 1]), es[|es| - 1])
  }

  /** How often a run loses the directory of a skill that has started. */
  ghost function Forgets(s: State, es: seq<Event>): nat {
    if es == [] then 0 else
      var before := Run(s, es[..|es| - 1]);
      Forgets(s, es[..|es| - 1]) + if DropsDirectory(before, es[|es| - 1]) && before.standing != [] then 1 else 0
  }

  // --- what execute answers ---

  /** In every run every execute call is answered honestly. */
  lemma {:induction false} ExecutionsHonest(es: seq<Event>, e: Execution)
    requires e in Run(EMPTY, es).executions
    ensures !e.answer.NotObserved? && NoLater(Outlook(e.since, e.request), e.answer)
    ensures e.answer.Found? ==>
              && e.until.receipt.Exists() && e.until.receipt.value == e.answer.receipt
              && e.answer.receipt.request == e.request
    ensures e.answer.Refused? ==> e.until.marker.Exists() && e.until.marker.value != e.request
    ensures e.own.Some? ==>
              && e.answer == Found(e.own.value) && e.own.value.request == e.request
              && e.until.receipt == Synced(e.own.value) && e.until.marker == Synced(e.request)
  {
    RunKeeps(EMPTY, es);
    assert Honest(e);
  }

  // --- starting ---

  /** However callers, crashes and power losses interleave, the starts are one more than the times
      a started operation's directory was lost, or just as many; the start that stands is covered by a
      synced marker equal to its request, and a receipt implies that marker. */
  lemma {:induction false} StartsAtMostOncePerDirectory(es: seq<Event>)
    ensures var s := Run(EMPTY, es);
            && |s.starts| == Forgets(EMPTY, es) + |s.standing| && |s.standing| <= 1
            && (s.standing != [] ==> s.disk.marker == Synced(s.standing[0]))
            && (s.disk.receipt.Exists() ==>
                  s.disk.marker.Synced? && s.disk.receipt.value.request == s.disk.marker.value)
    decreases |es|
  {
    hide Next, OnTrack, Critical;
    RunKeeps(EMPTY, es);
    if es != [] {
      StartsAtMostOncePerDirectory(es[..|es| - 1]);
      RunKeeps(EMPTY, es[..|es| - 1]);
      StartCounted(Run(EMPTY, es[..|es| - 1]), es[|es| - 1]);
    }
  }

  lemma StartCounted(s: State, e: Event)
    requires Inv(s)
    ensures var t := Next(s, e);
            |t.starts| + |s.standing| ==
            |s.starts| + |t.standing| + if DropsDirectory(s, e) && s.standing != [] then 1 else 0
  {}

  /** As long as no power loss takes the directory of a started skill, it starts at most once. */
  lemma StartsAtMostOnce(es: seq<Event>)
    requires Forgets(EMPTY, es) == 0
    ensures |Run(EMPTY, es).starts| <= 1
  {
    StartsAtMostOncePerDirectory(es);
  }

  /** A step whose checks fail, the first deadline or the second, neither writes a marker nor starts the skill,
      and one that fails after the marker is written leads to a receipt that says so. */
  lemma FailedChecksStartNothing(s: State, pid: nat, choice: Choice)
    requires pid in s.calls && !choice.passes
    ensures var t := Advanced(s, pid, choice);
            && t.starts == s.starts && t.standing == s.standing
            && (s.disk.marker.Absent? ==> t.disk.marker.Absent?)
            && (s.calls[pid].phase.Armed? ==>
                  && pid in t.calls
                  && t.calls[pid].phase == Finished(Receipt(s.calls[pid].request, Raised("TimeoutError"))))
  {}

  /** What stands stays, and nothing starts beside it. */
  lemma {:induction false} StandsStill(s: State, es: seq<Event>)
    requires Inv(s) && s.standing != [] && NeverDrops(s, es)
    ensures Run(s, es).starts == s.starts && Run(s, es).standing == s.standing
    decreases |es|
  {
    if es != [] {
      StandsStill(s, es[..|es| - 1]);
      RunKeeps(s, es[..|es| - 1]);
      StandsThrough(Run(s, es[..|es| - 1]), es[|es| - 1]);
    }
  }

  lemma StandsThrough(s: State, e: Event)
    requires Inv(s) && s.standing != [] && !DropsDirectory(s, e)
    ensures Next(s, e).starts == s.starts && Next(s, e).standing == s.standing
  {
    if e.Advance? && e.pid in s.calls {
      assert OnTrack(s, s.calls[e.pid]);
    }
  }

  /** On a bare disk a caller gets the lock and finds no marker. */
  lemma GetsThere(s: State, q: Request) returns (es: seq<Event>)
    requires s.disk == BARE && s.lock.None? && s.calls == map[]
    ensures NeverDrops(s, es)
    ensures Run(s, es) == s.(disk := BARE.(directory := Linked(())), lock := Some(0),
                             calls := map[0 := Call(Execute, q, Cleared, BARE)])
  {
    var go := Advance(0, Choice(true, Returned("")));
    hide Run, NeverDrops;
    es := Begun(s, Begin(0, Execute, q));
    assert Run(s, es).calls == map[0 := Call(Execute, q, Arriving, BARE)];
    es := Appended(s, es, go);
    es := Appended(s, es, go);
    assert Run(s, es).calls == map[0 := Call(Execute, q, Owner, BARE)];
    es := Appended(s, es, go);
    assert Run(s, es).calls == map[0 := Call(Execute, q, Cleared, BARE)];
  }

  /** And if its checks pass it starts the skill. */
  lemma StartsFresh(s: State, q: Request) returns (es: seq<Event>)
    requires s.disk == BARE && s.lock.None? && s.calls == map[]
    ensures NeverDrops(s, es)
    ensures var t := Run(s, es);
            && t.starts == s.starts + [q] && t.standing == s.standing + [q]
            && t.lookups == s.lookups && t.executions == s.executions
            && t.disk == Disk(Linked(()), Synced(q), Absent)
            && t.lock == Some(0) && t.calls == map[0 := Call(Execute, q, Running, BARE)]
  {
    hide Run, NeverDrops;
    var go := Advance(0, Choice(true, Returned("")));
    es := GetsThere(s, q);
    es := Appended(s, es, go);
    assert Run(s, es).calls == map[0 := Call(Execute, q, MarkerLinked, BARE)];
    es := Appended(s, es, go);
    assert Run(s, es).calls == map[0 := Call(Execute, q, Armed, BARE)];
    es := Appended(s, es, go);
    assert Run(s, es).calls == map[0 := Call(Execute, q, Running, BARE)];
  }

  /** A run of one event. */
  lemma Begun(s: State, e: Event) returns (es: seq<Event>)
    requires !e.PowerLoss?
    ensures Run(s, es) == Next(s, e) && NeverDrops(s, es)
  {
    es := [e];
    assert es[..0] == [] && Run(s, es[..0]) == s;
  }

  lemma Appended(s: State, es: seq<Event>, e: Event) returns (fs: seq<Event>)
    requires !e.PowerLoss? && NeverDrops(s, es)
    ensures fs == es + [e] && Run(s, fs) == Next(Run(s, es), e) && NeverDrops(s, fs)
  {
    fs := es + [e];
    assert fs[..|fs| - 1] == es;
  }

  /** The exact condition: after an event the skill can start a second time, with the directory kept
      from then on, exactly when the event loses the directory. */
  lemma {:induction false} StartsAgainIff(s: State, e: Event)
    requires Inv(s) && s.standing != []
    ensures (exists fs :: NeverDrops(Next(s, e), fs) && |Run(Next(s, e), fs).starts| > |s.starts|) <==>
            DropsDirectory(s, e)
  {
    if DropsDirectory(s, e) {
      var fs := StartsFresh(Next(s, e), s.standing[0]);
    } else {
      EventKeeps(s, e);
      StandsThrough(s, e);
      forall fs | NeverDrops(Next(s, e), fs) ensures Run(Next(s, e), fs).starts == s.starts {
        StandsStill(Next(s, e), fs);
      }
    }
  }

  /** The exception is real: a run in which one request starts twice. */
  lemma StartsTwice(q: Request) returns (es: seq<Event>)
    ensures Run(EMPTY, es).starts == [q, q]
  {
    var first := StartsFresh(EMPTY, q);
    var loss := PowerLoss(false, true, true);
    var lost := first + [loss];
    assert lost[..|lost| - 1] == first;
    var second := StartsFresh(Run(EMPTY, lost), q);
    es := lost + second;
    RunJoins(EMPTY, lost, second);
  }

  /** A started skill stays observed through an event exactly when the event keeps the directory. */
  lemma StaysObservedIff(s: State, e: Event)
    requires Inv(s) && s.standing != []
    ensures NoLater(Unknown, Outlook(Next(s, e).disk, s.standing[0])) <==> !DropsDirectory(s, e)
  {
    if !DropsDirectory(s, e) {
      StandsThrough(s, e);
      EventKeeps(s, e);
    }
  }

  /** A started skill is never again reported as not observed while its directory is kept. */
  lemma {:induction false} StartedStaysObserved(s: State, es: seq<Event>)
    requires Inv(s) && s.standing != [] && NeverDrops(s, es)
    ensures var t := Run(s, es); t.starts == s.starts && NoLater(Unknown, Outlook(t.disk, s.standing[0]))
  {
    StandsStill(s, es);
    RunKeeps(s, es);
  }

  /** A synced receipt survives an event exactly when the directory does. */
  lemma SyncedReceiptStaysIff(s: State, e: Event)
    requires Inv(s) && s.disk.receipt.Synced?
    ensures Next(s, e).disk.receipt == s.disk.receipt <==> !DropsDirectory(s, e)
  {
    if e.Advance? && e.pid in s.calls {
      assert OnTrack(s, s.calls[e.pid]);
    }
  }

  /** A synced receipt is final while its directory is kept. */
  lemma {:induction false} SyncedReceiptIsFinal(s: State, es: seq<Event>)
    requires Inv(s) && s.disk.receipt.Synced? && NeverDrops(s, es)
    ensures Run(s, es).disk.receipt == s.disk.receipt
    decreases |es|
  {
    if es != [] {
      SyncedReceiptIsFinal(s, es[..|es| - 1]);
      RunKeeps(s, es[..|es| - 1]);
      SyncedReceiptStaysIff(Run(s, es[..|es| - 1]), es[|es| - 1]);
    }
  }

  // --- lookups ---

  /** A power loss takes something visible away exactly when it drops a file not yet synced,
      or the directory with the marker in it. */
  predicate Loses(s: State, e: Event) {
    && e.PowerLoss?
    && (|| (DropsDirectory(s, e) && s.disk.marker.Exists())
        || (s.disk.marker.Linked? && !e.keepMarker)
        || (s.disk.receipt.Linked? && !e.keepReceipt))
  }

  lemma EventExtendsIff(s: State, e: Event)
    requires Inv(s)
    ensures Extends(s.disk, Next(s, e).disk) <==> !Loses(s, e)
  {
    if e.Advance? && e.pid in s.calls {
      AdvanceExtends(s, e.pid, e.choice);
    }
  }

  /** The exact condition for lookups: through an event every answer a lookup would give only advances,
      unless the event loses something visible, and then some answer falls back. */
  lemma OutlookAdvancesIff(s: State, e: Event)
    requires Inv(s)
    ensures (forall q :: NoLater(Outlook(s.disk, q), Outlook(Next(s, e).disk, q))) <==> !Loses(s, e)
  {
    EventExtendsIff(s, e);
    EventKeeps(s, e);
    if !Loses(s, e) {
      forall q ensures NoLater(Outlook(s.disk, q), Outlook(Next(s, e).disk, q)) {
        ExtendsKeepsOutlook(s.disk, Next(s, e).disk, q);
      }
    } else {
      var q := s.disk.marker.value;
      assert !NoLater(Outlook(s.disk, q), Outlook(Next(s, e).disk, q));
    }
  }

  ghost predicate NeverLoses(s: State, es: seq<Event>) {
    es != [] ==> NeverLoses(s, es[..|es| - 1]) && !Loses(Run(s, es[..|es| - 1]), es[|es| - 1])
  }

  lemma {:induction false} RunExtends(s: State, es: seq<Event>)
    requires Inv(s) && NeverLoses(s, es)
    ensures Extends(s.disk, Run(s, es).disk)
    decreases |es|
  {
    if es != [] {
      RunExtends(s, es[..|es| - 1]);
      RunKeeps(s, es[..|es| - 1]);
      EventExtendsIff(Run(s, es[..|es| - 1]), es[|es| - 1]);
    }
  }

  /** Of two lookups of one request, the later, begun after the earlier ended, answers no less,
      unless a power loss in between took a visible file. */
  lemma {:induction false} LookupsOnlyAdvance(s: State, es: seq<Event>, fs: seq<Event>, early: Report, late: Report)
    requires Inv(s) && NeverLoses(s, es)
    requires early in s.lookups && early.until == s.disk
    requires late in Run(Run(s, es), fs).lookups && late.since == Run(s, es).disk
    requires early.request == late.request
    ensures NoLater(early.answer, late.answer)
  {
    RunExtends(s, es);
    RunKeeps(s, es);
    RunKeeps(Run(s, es), fs);
    ExtendsKeepsOutlook(early.until, late.since, early.request);
    assert Truthful(early) && Truthful(late);
  }

  /** A lookup begun on a still disk reports the outlook. */
  lemma LooksUp(s: State, pid: nat, q: Request) returns (es: seq<Event>)
    requires pid !in s.calls
    requires s.disk.marker.Exists() ==> s.disk.marker.value == q
    requires s.disk.receipt.Exists() ==> s.disk.receipt.value.request == q
    ensures NeverDrops(s, es)
    ensures var t := Run(s, es);
            && t.disk == s.disk && t.starts == s.starts
            && t.lookups == s.lookups + [Report(q, s.disk, s.disk, Outlook(s.disk, q))]
  {
    var go := Advance(pid, Choice(true, Returned("")));
    es := [Begin(pid, Lookup, q)];
    assert Run(s, es[..0]) == s;
    assert Run(s, es).calls[pid] == Call(Lookup, q, LookMarker, s.disk);
    es := Appended(s, es, go);
    if s.disk.marker.Exists() {
      assert Run(s, es).calls[pid].phase == LookReceipt;
      es := Appended(s, es, go);
    }
    assert Run(s, es).calls[pid] == Call(Lookup, q, Answered(Outlook(s.disk, q)), s.disk);
    es := Appended(s, es, go);
  }

  /** The exception is real: a lookup sees a marker before its directory is synced, the power goes,
      and the next lookup of the same request sees nothing. */
  lemma UnsyncedMarkerCanVanish(q: Request) returns (es: seq<Event>)
    ensures var l := Run(EMPTY, es).lookups;
            |l| == 2 && l[0].request == l[1].request == q && l[0].answer == Unknown && l[1].answer == NotObserved
  {
    var go := Advance(0, Choice(true, Returned("")));
    es := [Begin(0, Execute, q)];
    assert Run(EMPTY, es[..0]) == EMPTY;
    assert Run(EMPTY, es).calls[0].phase == Arriving;
    es := Appended(EMPTY, es, go);
    es := Appended(EMPTY, es, go);
    es := Appended(EMPTY, es, go);
    assert Run(EMPTY, es).calls[0].phase == Cleared;
    es := Appended(EMPTY, es, go);
    var marked := Run(EMPTY, es);
    var look := LooksUp(marked, 1, q);
    RunJoins(EMPTY, es, look);
    var loss := PowerLoss(true, false, false);
    es := es + look + [loss];
    assert es[..|es| - 1] == es[..|es| - 1 - |look|] + look;
    var again := LooksUp(Run(EMPTY, es), 1, q);
    RunJoins(EMPTY, es, again);
    es := es + again;
  }

  /** From a bare disk to a synced receipt of a skill that ends with `result`. */
  lemma Completes(s: State, q: Request, result: Result) returns (es: seq<Event>)
    requires s.disk == BARE && s.lock.None? && s.calls == map[]
    ensures var t := Run(s, es);
            && t.starts == s.starts + [q] && t.lookups == s.lookups && t.calls == map[] && t.lock.None?
            && t.disk == Disk(Linked(()), Synced(q), Synced(Receipt(q, result)))
            && var r := Receipt(q, result);
               t.executions == s.executions + [Execution(q, s.disk, t.disk, Found(r), Some(r))]
  {
    hide Run, NeverDrops;
    var go := Advance(0, Choice(true, result));
    es := StartsFresh(s, q);
    es := Appended(s, es, go);
    assert Run(s, es).calls == map[0 := Call(Execute, q, Finished(Receipt(q, result)), BARE)];
    es := Appended(s, es, go);
    assert Run(s, es).disk == Disk(Linked(()), Synced(q), Linked(Receipt(q, result)));
    assert Run(s, es).calls == map[0 := Call(Execute, q, ReceiptLinked(Receipt(q, result)), BARE)];
    es := Appended(s, es, go);
    assert Run(s, es).calls == map[0 := Call(Execute, q, Reporting(Receipt(q, result)), BARE)];
    es := Appended(s, es, go);
    assert Run(s, es).calls == map[];
  }

  /** A skill completes and its synced receipt is looked up. */
  lemma CompletesAndLooks(s: State, q: Request, result: Result) returns (es: seq<Event>)
    requires s.disk == BARE && s.lock.None? && s.calls == map[]
    ensures var t := Run(s, es);
            && t.starts == s.starts + [q] && t.disk.directory.Linked?
            && |t.lookups| == |s.lookups| + 1 && t.lookups[..|s.lookups|] == s.lookups
            && t.lookups[|s.lookups|].request == q && t.lookups[|s.lookups|].answer == Found(Receipt(q, result))
  {
    var work := Completes(s, q, result);
    var look := LooksUp(Run(s, work), 1, q);
    RunJoins(s, work, look);
    es := work + look;
  }

  /** The exception is real for synced receipts too: one request, two lookups, two receipts of one's choice. */
  lemma ReceiptReplaced(q: Request, first: Result, second: Result) returns (es: seq<Event>)
    ensures var t := Run(EMPTY, es);
            && t.starts == [q, q] && |t.lookups| == 2
            && t.lookups[0].request == q && t.lookups[0].answer == Found(Receipt(q, first))
            && t.lookups[1].request == q && t.lookups[1].answer == Found(Receipt(q, second))
  {
    var early := CompletesAndLooks(EMPTY, q, first);
    var lost := early + [PowerLoss(false, true, true)];
    assert lost[..|lost| - 1] == early;
    var late := CompletesAndLooks(Run(EMPTY, lost), q, second);
    RunJoins(EMPTY, lost, late);
    es := lost + late;
  }

  /** While one caller has the lock and no marker yet, another execute call is answered UNKNOWN. */
  lemma ContendedIsUnknown(q: Request, p: Request) returns (es: seq<Event>)
    ensures var t := Run(EMPTY, es);
            && t.starts == [] && |t.executions| == 1
            && t.executions[0].request == p && t.executions[0].answer == Unknown && t.executions[0].own.None?
  {
    hide Run, NeverDrops;
    es := GetsThere(EMPTY, q);
    var disk := Run(EMPTY, es).disk;
    var go := Advance(1, Choice(true, Returned("")));
    es := Appended(EMPTY, es, Begin(1, Execute, p));
    es := Appended(EMPTY, es, go);
    assert Run(EMPTY, es).calls[1] == Call(Execute, p, Opened, disk) && Run(EMPTY, es).lock == Some(0);
    es := Appended(EMPTY, es, go);
    assert Run(EMPTY, es).calls[1] == Call(Execute, p, LookMarker, disk) && Run(EMPTY, es).disk == disk;
    es := Appended(EMPTY, es, go);
    assert Run(EMPTY, es).calls[1] == Call(Execute, p, Answered(Unknown), disk);
    es := Appended(EMPTY, es, go);
  }

  /** An execute call for a request that has its receipt gets that receipt and starts nothing; one for
      another request is refused. */
  lemma ExecuteReplays(q: Request, result: Result, p: Request) returns (es: seq<Event>)
    ensures var t := Run(EMPTY, es);
            && t.starts == [q] && |t.executions| == 2
            && t.executions[1].request == p && t.executions[1].own.None?
            && t.executions[1].answer == if p == q then Found(Receipt(q, result)) else Refused
  {
    es := Completes(EMPTY, q, result);
    var s := Run(EMPTY, es);
    var again := Replays(s, q, result, p);
    RunJoins(EMPTY, es, again);
    es := es + again;
  }

  /** A caller that gets the lock and finds a marker goes to look at what is stored. */
  lemma LooksUnderLock(s: State, p: Request) returns (es: seq<Event>)
    requires s.calls == map[] && s.lock.None? && s.disk.directory.Exists() && s.disk.marker.Exists()
    ensures NeverDrops(s, es)
    ensures var t := Run(s, es);
            && t.disk == s.disk && t.starts == s.starts && t.executions == s.executions && t.lock == Some(0)
            && t.calls == map[0 := Call(Execute, p, LookMarker, s.disk)]
  {
    hide Run, NeverDrops;
    var go := Advance(0, Choice(true, Returned("")));
    es := Begun(s, Begin(0, Execute, p));
    assert Run(s, es).calls == map[0 := Call(Execute, p, Arriving, s.disk)];
    es := Appended(s, es, go);
    assert Run(s, es).calls == map[0 := Call(Execute, p, Opened, s.disk)];
    es := Appended(s, es, go);
    assert Run(s, es).calls == map[0 := Call(Execute, p, Owner, s.disk)];
    es := Appended(s, es, go);
    assert Run(s, es).calls == map[0 := Call(Execute, p, LookMarker, s.disk)];
  }

  lemma Replays(s: State, q: Request, result: Result, p: Request) returns (es: seq<Event>)
    requires s.calls == map[] && s.lock.None?
    requires s.disk == Disk(Linked(()), Synced(q), Synced(Receipt(q, result)))
    ensures var t := Run(s, es);
            && t.starts == s.starts
            && t.executions == s.executions +
                 [Execution(p, s.disk, s.disk, if p == q then Found(Receipt(q, result)) else Refused, None)]
  {
    hide Run, NeverDrops;
    var go := Advance(0, Choice(true, Returned("")));
    es := LooksUnderLock(s, p);
    es := Appended(s, es, go);
    if p == q {
      assert Run(s, es).calls == map[0 := Call(Execute, p, LookReceipt, s.disk)];
      es := Appended(s, es, go);
    }
    var answer := if p == q then Found(Receipt(q, result)) else Refused;
    assert Run(s, es).calls[0] == Call(Execute, p, Answered(answer), s.disk);
    es := Appended(s, es, go);
  }
}
