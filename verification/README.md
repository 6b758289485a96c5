# Proofs about the RX executor, its journals and its wire formats

This project models six parts of the RX solutions repository in Dafny and proves what they keep over every run,
every input or every interleaving.

- **The behaviour-tree executor.** `ExecutorTypes`, `Continuity` and `ContextState` are the values of `Context`;
  `ContextObject` is the object itself, with its fields, loops and drain by rotation.
  `BehaviorTree` is one tick as a function of the tree, the frame and the clock looks it makes;
  `ExecutorObject` is the ticking code proved equal to it. `TickLaws`, `TickOutcomes`, `TickFailures`, `TickExpiry`
  and `TickOrder` say what a tick means. `ExecutorRuns` lets frames, tick actions, halts and drains interleave freely, and `ExecutorTheorems` states what
  holds in every such run. `ExecutorDelivery` says by the fields of frames and requests what is
  accepted, queued and handed out. `AcceptedFrames` speaks of ticks on frames that `publish` accepts. `XmlTree` is the XML check,
  `XmlFaces` what an accepted document looks like, and `XmlUnfolding` what acceptance buys. `Engine` is the command loop.
  `Options` and `ByteStrings` are shared by all parts.
- **The at-most-once skill journal**, `HostJournal`: callers, process deaths and power losses as a step machine.
- **The runtime client's request journal**, `RuntimeJournal` and `RuntimeSending`: write-once files under a lock, two POST stages,
  and exactly which POSTs a journal can still send, however it was left.
- **The JTC bridge ledger**, `BridgeLedger` (values and runs) and `BridgeObject` (the object).
- **The wire formats.** `WireGrammar`, `WireScan` and `WireScanner` for the strict protobuf scanner; `Crc`, `CrcRemainder`
  and `Framing` for DYNAMIXEL Protocol 2.0.
- **The seccomp filter** of the descriptor guardian, `Seccomp`.

Each state-changing object is a class whose methods are proved against a function on values; the laws are lemmas about those functions.
Clocks, native answers, server replies and what a power loss keeps are inputs.

## Where the code is weaker than one might expect

Each of these is proved with its exact condition, and shown by an accepted frame or a run from an empty directory.

- A parallel node can report FAILURE over a live operation that sits behind a failed sequence sibling
  (`TickOutcomes.ParallelFailureLeavesNothing`; shown by `AcceptedFrames.FailureOverUnreachedLiveWork`).
- The searches of a parallel node look at the clock again. If the view expires between the blocker search and the live-work search,
  FAILURE is reported over work that is live and reached (`TickExpiry.FailureOverLiveWorkIff`; shown by
  `AcceptedFrames.FailureOverReachedLiveWork`).
- The shared-operation check compares a frame with memory only. A frame that repeats an id is accepted and makes every later
  complete frame unacceptable (`ExecutorTheorems.InjectiveIffFramesDistinct`; shown by `AcceptedFrames.SharedIdAccepted`).
- Nothing syncs the entry of the operation directory itself. A power loss that drops it takes the synced marker along, and the skill
  can start again (`HostJournal.StartsAgainIff`; shown by `HostJournal.StartsTwice`). A synced receipt goes with it, and another may take
  its place (`HostJournal.SyncedReceiptStaysIff`; shown by `HostJournal.ReceiptReplaced`).
- A lookup may fall back from UNKNOWN to NOT_OBSERVED, if a power loss drops a marker not yet synced or the whole directory
  (`HostJournal.OutlookAdvancesIff`; shown by `HostJournal.UnsyncedMarkerCanVanish`).
- `save_new` trusts a file that exists without syncing it, and nothing syncs the request's directory entry. When a power loss drops
  the request of a POST already sent, another body may be sent under the same key (`RuntimeSending.TwoBodiesIff`,
  `RuntimeJournal.SentKeptIff`; shown by `RuntimeSending.LostRequestIsReplaced` and `RuntimeSending.LostDirectoryIsForgotten`).
- A prepare reply that was not synced is trusted likewise. When a power loss takes it, the prepare stage is sent again
  (`RuntimeJournal.ReplyStaysIff`; shown by `RuntimeSending.RepliedIsSentAgain`), and a start request already written for its run is sent
  although the prepare reply now stored names another run (`RuntimeJournal.StartFollowsIff`; shown by
  `RuntimeSending.StartForAnotherRun`).

The journals assume of the disk only what `fsync` promises: a synced file keeps its contents, a synced directory keeps the entries in
it, and an entry nobody synced may be gone after a power loss.

## Model

| member | source | states |
|---|---|---|
| `Continuity.AcceptedGrows` | native/executor/runtime.cpp:29-86 | an accepted frame only adds to the four continuity maps and rebinds nothing |
| `Continuity.CompleteIsProjection` | native/executor/runtime.cpp:63-86 | after an accepted complete frame the memory is that frame's projection, no more and no less |
| `ExecutorDelivery.AcceptedIff` | native/executor/runtime.cpp:25-79 | a frame is accepted exactly when it is of this context, not older, in its window, about defined nodes, shows no node incoherent or against memory, and if complete forgets nothing, each by its fields |
| `ExecutorDelivery.FrameRefusedBy` | native/executor/runtime.cpp:25-30 | a foreign identity, an older revision, a look outside the window or an undefined node each has a frame refused |
| `ExecutorDelivery.RefusedViewIsUnusable` | native/executor/runtime.cpp:104-115 | after a refused frame no look finds the view usable, and nodes, revision and memory stay |
| `ExecutorDelivery.AcceptedIsTheView` | native/executor/runtime.cpp:103-103 | an accepted frame is the view from then on, as it came |
| `ExecutorDelivery.ConfigIff` | native/executor/runtime.cpp:11-16 | which contexts can be made, by their fields |
| `Continuity.InjectivityKeptIff` | native/executor/runtime.cpp:49-55 | remembered operation ids stay injective exactly when the frame's own ids are distinct |
| `Continuity.SharedIdRejectsComplete` | native/executor/runtime.cpp:49-68 | once two nodes share a remembered id no complete frame is accepted |
| `AcceptedFrames.SharedIdAccepted` | native/executor/runtime.cpp:49-68 | a complete frame with one id at two nodes that is accepted, after which no complete frame is |
| `ContextObject.Context.Publish` | native/executor/runtime.cpp:22-116 | accepts exactly the frames that pass every check; accepted frames are remembered and prune the queue, refused ones invalidate the view, halt and latch one pause |
| `ContextObject.Context.CheckNodes` | native/executor/runtime.cpp:29-62 | the node loop decides all per-node checks |
| `ContextObject.Context.CheckKept` | native/executor/runtime.cpp:63-79 | the three loops over memory decide whether a complete view lost something |
| `ContextObject.Context.Commit` | native/executor/runtime.cpp:80-86 | the write loop leaves the old memory overlaid with the frame's projection |
| `ContextObject.Context.Prune` | native/executor/runtime.cpp:87-102 | exactly the undelivered requests the frame resolves leave the queue, order kept |
| `ContextObject.Context.Install` | native/executor/runtime.cpp:80-103 | an accepted frame is remembered, prunes the queue and becomes the incoming view |
| `ContextObject.Context.Refuse` | native/executor/runtime.cpp:104-115 | a refused frame leaves memory alone, makes the held view unusable and latches the pause |
| `ContextObject.Context.Enqueue` | native/executor/runtime.cpp:137-149 | queues once, under every gate and the capacity of 32; the answer says whether the request is on record |
| `ExecutorDelivery.ProposalQueued` | native/executor/runtime.cpp:137-149 | a proposal on a current, timely, authorised and eligible view, new, with room and not suppressed, is queued with its definition's argument and timeout |
| `ExecutorDelivery.AcceptedDropsGranted` | native/executor/runtime.cpp:87-102 | an accepted complete frame drops exactly the requests whose node it shows bound, decided, ended, released or cleared |
| `ContextObject.Context.Pause` | native/executor/runtime.cpp:150-159 | halts and puts one pause in front, at most once; an unknown node throws and changes nothing |
| `ContextObject.Context.TakeRequests` | native/executor/runtime.cpp:160-174 | the rotating loop returns the flagged entries up to the limit; unexamined entries come first, skipped ones after |
| `ExecutorTheorems.DrainTakesFirst` | native/executor/runtime.cpp:160-174 | a drain returns the first `limit` deliverable entries in queue order and loses none |
| `ExecutorDelivery.EligibleIsHandedOut` | native/executor/runtime.cpp:160-174 | not halted, with an authorised view that is complete, current and in time at every look, a drain hands out the entries for eligible nodes in order up to the limit |
| `ExecutorDelivery.HandedOutInTime` | native/executor/runtime.cpp:167-169 | anything but a pause is handed out only before a halt, with authority, for an eligible node, and with a look inside the frame's deadline and window |
| `ExecutorDelivery.RestOfDrain` | native/executor/runtime.cpp:160-174 | a drain leaves what it did not get to, then what it skipped, each in order, and stops as soon as it has enough |
| `ExecutorDelivery.PauseIsHandedOut` | native/executor/runtime.cpp:150-174 | in every run, once halted, the first drain hands out exactly the pause, whatever the view and the clock |
| `ExecutorDelivery.HaltQueuesThePause` | native/executor/runtime.cpp:104-159 | a halt or a refused frame puts the pause in front exactly if it was never asked for |
| `ExecutorTheorems.DrainIsUnsettled` | native/executor/runtime.cpp:87-102 | in any state that meets the run invariant a drain hands out, pause apart, only what the view authorises, makes eligible, is fresh for, and neither the view nor the memory settles |
| `ExecutorTheorems.SettledNeverHandedOut` | native/executor/runtime.cpp:63-103 | once an accepted frame has bound an operation, committed a branch or ended a wait, that request is never handed out again |
| `ExecutorTheorems.DeliveredOnce` | native/executor/runtime.cpp:137-174 | no (node, kind) is delivered twice in a context's lifetime |
| `ExecutorTheorems.DeliveredKeysDistinct` | native/executor/runtime.cpp:137-174 | the invariant alone keeps delivered keys distinct |
| `ExecutorTheorems.QueueConserved` | native/executor/runtime.cpp:87-174 | every request ever queued is still queued, delivered or dropped, as a multiset; keys are distinct; the queue never exceeds 33 |
| `ExecutorTheorems.DroppedStaySettled` | native/executor/runtime.cpp:87-102 | work dropped from the queue is settled in memory from then on |
| `ExecutorTheorems.QueuedIsDueAndAuthorised` | native/executor/runtime.cpp:137-149 | in every interleaving, what a tick queues is due in the one frame that is both the tick's and the current one, and that frame authorises it |
| `ExecutorTheorems.PendingStaysDue` | native/executor/nodes.cpp:24-93 | while a tick is under way, what it has still to propose is due in the tick's own frame |
| `ExecutorTheorems.HaltStays` | native/executor/runtime.cpp:150-159 | a halt is never lifted |
| `ExecutorTheorems.OnlyPauseAfterHalt` | native/executor/runtime.cpp:104-115 | after the first halt or refused frame nothing but the pause is ever handed out |
| `ExecutorTheorems.MemoryIsProjection` | native/executor/runtime.cpp:63-86 | in every run, while the view held is complete, the memory is its projection |
| `ExecutorTheorems.RunRemembers` | native/executor/runtime.cpp:22-116 | across all frames, accepted or refused, memory only grows |
| `ExecutorTheorems.RevisionsNeverFall` | native/executor/runtime.cpp:26-27 | the revision held never falls |
| `ExecutorTheorems.InjectiveIffFramesDistinct` | native/executor/runtime.cpp:49-55 | over a run, ids are injective exactly when every accepted frame's ids were distinct |
| `ExecutorTheorems.SharedIdsRefuseForever` | native/executor/runtime.cpp:49-68 | after a repeated id every later complete frame is refused |
| `ExecutorTheorems.SuppressionLasts` | native/executor/runtime.cpp:117-140 | until the next tick begins a suppressed context queues no new work, whoever else acts |
| `ExecutorRuns.RunKeeps` | native/executor/runtime.cpp:22-174 | one invariant (memory, stamps, open queue, bound, ledger, distinct keys, halt latch) holds in every state of every run |
| `TickLaws.SearchExact` | native/executor/nodes.cpp:94-122 | on a usable view each search answers whether an active node is hit |
| `TickLaws.SearchNoMiss` | native/executor/nodes.cpp:94-116 | a problem or blocker search that finds nothing missed nothing, whatever the clock does |
| `TickLaws.TickIsEval` | native/executor/nodes.cpp:24-93 | while the view stays usable the status is a function of the frame alone |
| `TickOutcomes.SuccessIffAllDone` | native/executor/nodes.cpp:24-93 | SUCCESS exactly when every active node is done: operations succeeded, released, valid and known, waits satisfied, interventions cleared, branches decided, parallels unblocked |
| `TickOutcomes.SuccessWhateverTheClock` | native/executor/nodes.cpp:24-93 | SUCCESS is never an artefact of the view expiring during the tick |
| `TickFailures.LeafStatus` | native/executor/nodes.cpp:24-47 | a leaf succeeds, fails or runs exactly as the frame shows it done, broken (an operation that failed, was canceled or not executed, a wait that timed out) or neither |
| `TickFailures.LeafTicks` | native/executor/nodes.cpp:24-47 | the same for its tick on a view that stays usable |
| `TickFailures.SerialFailsIff` | native/executor/nodes.cpp:63-80 | a tree without parallel nodes fails exactly when its tick gets to a broken leaf |
| `TickFailures.ParallelFailsIff` | native/executor/nodes.cpp:81-92 | a parallel node over such trees fails exactly when a child gets to a broken leaf, none to a node without children, nothing obstructs, and no operation is live or every child has ended |
| `TickFailures.NestedFailsIff` | native/executor/nodes.cpp:81-92 | the same by the statuses of any children |
| `TickFailures.FailureHasBrokenLeaf` | native/executor/nodes.cpp:24-93 | nothing fails but over a broken leaf its tick has reached |
| `TickFailures.FaultIff` | native/executor/nodes.cpp:69-86 | FAULT exactly when the tick gets to a control node without a child to go to |
| `TickFailures.BranchSides` | native/executor/nodes.cpp:65-71 | a decided branch is its first child for true and its second for false, to ticks and searches alike |
| `TickFailures.SearchesMean` | native/executor/nodes.cpp:94-122 | the three searches by what the frame shows of active nodes |
| `TickFailures.SuppressesIff` | native/executor/nodes.cpp:82-103 | a parallel node's tick suppresses exactly when an active node is in trouble |
| `TickFailures.UnmentionedIsAsked` | native/executor/runtime.cpp:131-136 | a reached node the frame does not mention is asked for as one that has not begun |
| `ExecutorDelivery.LateTickIsIdle` | native/executor/runtime.cpp:130-136 | a tick none of whose looks finds its frame complete, current and in time runs on and asks for nothing |
| `TickOutcomes.ReachedLiveKeepsRunning` | native/executor/nodes.cpp:63-93 | on a usable view no node succeeds or fails over a live operation its tick has reached |
| `TickOutcomes.ParallelFailureLeavesNothing` | native/executor/nodes.cpp:81-92 | a failing parallel node has no blocker, and no live operation exactly when no live operation sits behind an unfinished sequence sibling |
| `AcceptedFrames.FailureOverUnreachedLiveWork` | native/executor/nodes.cpp:90-92 | a valid context, tree and accepted complete frame whose tick reports FAILURE over live work behind a failed operation |
| `AcceptedFrames.SuccessOfAcceptedFrame` | native/executor/nodes.cpp:24-93 | on an accepted frame SUCCESS exactly when every active leaf is done, every branch decided and nothing below a parallel node is shown unknown or damaged |
| `TickExpiry.FailureOverLiveWorkIff` | native/executor/nodes.cpp:81-92 | wherever in a tick a parallel node is reached, some expiry time makes it report FAILURE exactly when a child failed, none faults and nothing blocks; live work is no protection |
| `TickExpiry.ExpiryAfterBlockerSearch` | native/executor/nodes.cpp:89-92 | the expiry time that makes such a node, ticked from any look on, report FAILURE |
| `TickExpiry.FailureNeedsFailedUnblocked` | native/executor/nodes.cpp:81-92 | FAILURE under any expiring view needs a failed child, no fault and no blocker |
| `TickExpiry.LiveSearchBlind` | native/executor/nodes.cpp:117-122 | on an expired view the live-work search finds nothing |
| `TickExpiry.OnlyExpiryHidesReachedWork` | native/executor/nodes.cpp:63-92 | FAILURE over a reached live operation means some look found the view unusable |
| `AcceptedFrames.FailureOverReachedLiveWork` | native/executor/nodes.cpp:90-92 | an accepted frame and an expiry time for which a parallel node reports FAILURE over an operation that is live and reached |
| `TickOrder.ProposalsAreDue` | native/executor/nodes.cpp:24-93 | every proposal is for a node that wants it, behind only succeeded sequence siblings and on the chosen side of every branch |
| `TickOrder.DueIsProposed` | native/executor/nodes.cpp:24-93 | on a usable view every wanting node the tick reaches is proposed |
| `TickOrder.SerialAsksOnce` | native/executor/nodes.cpp:63-80 | a tree without parallel nodes proposes at most once per tick, and only while running |
| `TickOrder.ProblemSuppressesFirst` | native/executor/nodes.cpp:82-103 | a parallel node with a problem in its active subtree suppresses before it ticks a child |
| `TickEffects.ProblemStopsNewWork` | native/executor/nodes.cpp:82-103 | such a problem stops new work in that subtree and in whatever is ticked later in the tick; the next tick lifts it |
| `TickEffects.SuppressedAddsNoWork` | native/executor/runtime.cpp:139-139 | a suppressed context takes no submit, branch or wait request |
| `TickEffects.SerialAddsAtMostOne` | native/executor/runtime.cpp:137-149 | a serial tree adds at most one queue entry per tick |
| `ExecutorObject.Executor.TickNode` | native/executor/nodes.cpp:24-93 | the recursive ticking code has the status of the tick function and exactly its effects on the context |
| `ExecutorObject.Executor.TickLeaf` | native/executor/nodes.cpp:24-47 | a leaf's status and the at most one proposal it makes |
| `ExecutorObject.Executor.TickBranch` | native/executor/nodes.cpp:65-71 | a branch asks for its decision or ticks the chosen side only |
| `ExecutorObject.Executor.TickTogether` | native/executor/nodes.cpp:81-92 | a parallel node suppresses, ticks all children, then decides by blocker and live work |
| `ExecutorObject.Executor.TickEach` | native/executor/nodes.cpp:81-88 | the parallel loop ticks every child and keeps the running and failed flags |
| `ExecutorObject.Executor.TickInOrder` | native/executor/nodes.cpp:73-80 | the sequence loop stops at the first child that does not succeed |
| `ExecutorObject.Executor.Tick` | native/executor/runtime.cpp:181-181 | one tick works on the frame held when it starts; its status ignores queue, suppression and earlier ticks |
| `ExecutorObject.Executor.Halt` | native/executor/runtime.cpp:182-182 | halting latches the root's pause |
| `ExecutorObject.NewExecutor` | native/executor/runtime.cpp:175-180 | a tree is built exactly for documents that are the resolved process |
| `XmlTree.ValidateNode` | native/executor/xml.cpp:32-64 | the recursion with its visited set accepts exactly unfoldings with fresh distinct ids within the depth and size limits |
| `XmlTree.ValidateChildren` | native/executor/xml.cpp:57-63 | the loop over child elements accepts exactly the defined children, in order, with fresh ids |
| `XmlTree.ValidateXml` | native/executor/xml.cpp:66-83 | accepts exactly when the document is the unfolding of the definitions from the root, each used once, at most 65 levels |
| `XmlFaces.DescribesIff` | native/executor/xml.cpp:32-64 | an element is accepted for a definition exactly with this tag, just these attributes and values, and only elements and comments inside |
| `XmlFaces.FromCharsIff` | native/executor/xml.cpp:51-56 | a timeout text is read exactly as the number it spells, leading zeros aside, within 64 bits |
| `XmlFaces.EnvelopeIff` | native/executor/xml.cpp:66-80 | the document around the tree, element by element |
| `XmlFaces.ElementsJoin` | native/executor/xml.cpp:17-20 | comments drop out and elements keep their order |
| `XmlUnfolding.AcceptedIsRanked` | native/executor/nodes.cpp:94-122 | acceptance yields a rank under which every definition's children are smaller |
| `XmlUnfolding.SearchByIdIsSearch` | native/executor/nodes.cpp:94-122 | the id-by-id recursion over the definitions, which terminates by that rank, equals the search of the running tree |
| `XmlUnfolding.BuildAgrees` | native/executor/nodes.cpp:10-16 | every node of the built tree has its defined kind |
| `XmlUnfolding.AcceptedKinds` | native/executor/runtime.cpp:38-39 | accepted frames bind operations at operation nodes of the running tree only |
| `Engine.Serve` | native/executor/engine.cpp:105-143 | for every command sequence: one fitting reply per command up to the first fault or CLOSE, each related to the state before and after; from the first HALTED or FAULT on only pauses are carried, no (node, kind) is handed out twice, at most 32 requests per reply, none with READY |
| `Engine.Session.HandleInitialize` | native/executor/engine.cpp:118-122 | stays open exactly for a first INITIALIZE with a valid context and a document that is the resolved process |
| `Engine.Session.HandleAdvance` | native/executor/engine.cpp:123-131 | STALE exactly for a running session and a continuing frame past its window; a status exactly for one in time, accepted and without fault; the requests are one drain of the context after that tick |
| `Engine.PublishAndTick` | native/executor/engine.cpp:129-130 | the frame is accepted exactly by the continuity checks; status and context are those of one tick on that frame, or of a refusal |
| `Engine.Drain` | native/executor/engine.cpp:86-95 | a reply carries at most 32 requests, each logged as delivered, and only pauses once halted |
| `Engine.Session.HandleHalt` | native/executor/engine.cpp:132-134 | HALT and CLOSE latch the stop and answer HALTED with what one drain then yields |
| `Engine.Session.Fail` | native/executor/engine.cpp:139-143 | any fault latches the pause, reports FAULT and ends the loop |
| `Engine.Session.Handle` | native/executor/engine.cpp:114-143 | every command gets the reply and leaves the state that its fields and the state before call for; out of sequence it faults |
| `HostJournal.RunKeeps` | deployment/local-skills/host_runner.py:86-139 | mutual exclusion, directory, marker and receipt facts hold through every interleaving of callers, deaths and power losses, lost directories included |
| `HostJournal.ExecutionsHonest` | deployment/local-skills/host_runner.py:96-139 | in every run an execute call is never answered NOT_OBSERVED, is given only the stored receipt of its request, refused only for another request's marker, and told no less than a lookup when it began; the caller that ran the skill gets its own synced receipt |
| `HostJournal.ContendedIsUnknown` | deployment/local-skills/host_runner.py:99-102 | a run in which a second execute call meets the lock and is answered UNKNOWN |
| `HostJournal.ExecuteReplays` | deployment/local-skills/host_runner.py:103-104 | a run in which a later execute call gets the stored receipt, or is refused for another request, and starts nothing |
| `HostJournal.FailedChecksStartNothing` | deployment/local-skills/host_runner.py:105-124 | a step whose checks fail writes no marker and starts nothing; past the marker it leads to a receipt that says so |
| `HostJournal.StartsAtMostOncePerDirectory` | deployment/local-skills/host_runner.py:86-139 | in every run the starts are the times a started operation's directory was lost, plus one if a start stands; that one is covered by a synced marker equal to its request, and a receipt implies that marker |
| `HostJournal.StartsAtMostOnce` | deployment/local-skills/host_runner.py:96-129 | unless a power loss takes the directory of a started skill, it starts at most once |
| `HostJournal.StartsAgainIff` | deployment/local-skills/host_runner.py:96-129 | after any event a started skill can start again, with the directory kept from then on, exactly when the event loses the directory |
| `HostJournal.StartsTwice` | deployment/local-skills/host_runner.py:96-96 | a run from nothing in which one request starts twice |
| `HostJournal.EventExtendsIff` | deployment/local-skills/host_runner.py:21-32 | the visible files only grow, exactly unless a power loss drops a file not yet synced, or the directory with the marker in it |
| `HostJournal.OutlookAdvancesIff` | deployment/local-skills/host_runner.py:64-77 | through an event every answer a lookup would give only advances, exactly unless the event loses a visible file |
| `HostJournal.RunExtends` | deployment/local-skills/host_runner.py:21-32 | over a run without such a loss the visible files only grow |
| `HostJournal.UnsyncedMarkerCanVanish` | deployment/local-skills/host_runner.py:64-77 | a run in which one lookup answers UNKNOWN and a later one of the same request NOT_OBSERVED |
| `HostJournal.LookupsOnlyAdvance` | deployment/local-skills/host_runner.py:64-77 | as long as no visible file is lost, a lookup that begins later answers no less than an earlier one: NOT_OBSERVED, then UNKNOWN, then the one receipt |
| `HostJournal.StartedStaysObserved` | deployment/local-skills/host_runner.py:120-129 | while its directory is kept a started skill is never again NOT_OBSERVED, whatever else a power loss takes |
| `HostJournal.StaysObservedIff` | deployment/local-skills/host_runner.py:96-129 | a started skill stays observed through an event exactly when the event keeps the directory |
| `HostJournal.SyncedReceiptIsFinal` | deployment/local-skills/host_runner.py:136-137 | while its directory is kept a synced receipt never changes |
| `HostJournal.SyncedReceiptStaysIff` | deployment/local-skills/host_runner.py:136-137 | a synced receipt survives an event exactly when the directory does |
| `HostJournal.ReceiptReplaced` | deployment/local-skills/host_runner.py:96-137 | a run from nothing in which two lookups of one request return two synced receipts, with any two results |
| `RuntimeJournal.RunKeeps` | deployment/local-skills/runtime_client.py:139-217 | through crashes, torn files and any power loss: stored requests carry the path and key of their stage, every POST goes to its stage's path, and the lock holder knows what the files hold |
| `RuntimeJournal.Addressed` | deployment/local-skills/runtime_client.py:198-213 | whatever is lost, every POST goes to the path of its stage |
| `RuntimeJournal.PostsUnderBasis` | deployment/local-skills/runtime_client.py:179-196 | in every run a POST leaves only a call that was shown the scope of the stored basis, and its live part unless the start reply is there |
| `RuntimeJournal.SeenIsTheCatalog` | deployment/local-skills/runtime_client.py:179-183 | what a call was shown is what the catalog said when it asked |
| `RuntimeJournal.WrittenStaysIff` | deployment/local-skills/runtime_client.py:45-58 | what was written can still be read after an event exactly when no unsynced part of it is lost |
| `RuntimeJournal.SentKeptIff` | deployment/local-skills/runtime_client.py:155-171 | the request of every POST sent stays on the disk, whole or torn for good, exactly unless a power loss drops one; while it does no stage has two bodies |
| `RuntimeJournal.OneBodyPerStage` | deployment/local-skills/runtime_client.py:155-171 | unless a power loss drops the request of a POST already sent, all POSTs of a stage have one path, key and command; losing or tearing anything else breaks nothing |
| `RuntimeJournal.StartFollowsIff` | deployment/local-skills/runtime_client.py:198-213 | an event keeps the stored start request naming the prepared run, exactly unless it takes the prepare reply from under a start request that stays |
| `RuntimeJournal.StartFollowsPrepare` | deployment/local-skills/runtime_client.py:198-213 | in every run from nothing without such an event the stored start request names the run of the stored prepare reply |
| `RuntimeJournal.StartPostsFollow` | deployment/local-skills/runtime_client.py:198-213 | in such a run every start POST, when it is sent, names the run of the prepare reply then stored |
| `RuntimeJournal.RepliedNeverPostsAgain` | deployment/local-skills/runtime_client.py:166-171 | once a stage's reply file is there, whole or torn, the stage is not sent again until a power loss drops that very file |
| `RuntimeJournal.ReplyStaysIff` | deployment/local-skills/runtime_client.py:166-171 | a reply file stays through an event exactly unless a power loss drops its entry or its directory |
| `RuntimeSending.SendableIff` | deployment/local-skills/runtime_client.py:155-217 | without a further power loss an idle journal can send a POST exactly when each file on its way is absent or holds just what that POST needs, and its stage has no reply |
| `RuntimeSending.TwoBodiesIff` | deployment/local-skills/runtime_client.py:155-217 | from an idle journal some calls send a stage with two bodies exactly when the files leave room for another body of a stage already sent |
| `RuntimeSending.OnlyDroppingReopens` | deployment/local-skills/runtime_client.py:155-171 | only a power loss that drops the request of a POST already sent leaves such room |
| `RuntimeSending.LostRequestIsReplaced` | deployment/local-skills/runtime_client.py:45-58 | a run from an empty directory: a caller dies before syncing the start request, the next sends it, the power goes, a third sends another |
| `RuntimeSending.LostDirectoryIsForgotten` | deployment/local-skills/runtime_client.py:144-145 | a run that loses nothing but the request's directory entry and sends the prepare stage with two bodies |
| `RuntimeSending.RepliedIsSentAgain` | deployment/local-skills/runtime_client.py:166-171 | a run in which a stage is sent, its reply stored, and the stage sent again |
| `RuntimeSending.StartForAnotherRun` | deployment/local-skills/runtime_client.py:198-213 | a run that ends with a start POST sent for one run while the stored prepare reply names another |
| `BridgeLedger.RunKeeps` | native/ros-jtc/bridge.cpp:296-421 | in every run at most one goal is pending, the maps are inverse, native send and cancel are entered once per key, bytes are the stored bodies within 16 MiB |
| `BridgeLedger.RunLasts` | native/ros-jtc/bridge.cpp:351-383 | identities, bodies, captured results and entered cancels never change; after a fault no send is entered |
| `BridgeLedger.RunRecords` | native/ros-jtc/bridge.cpp:331-348 | in every run the ledger says of each send what the native side answered: accepted and pending until a result, rejected and over, or unknown and pending |
| `BridgeLedger.LiveGoalBlocksSends` | native/ros-jtc/bridge.cpp:314-315 | while a goal accepted or unanswered has no captured result no command enters another send |
| `BridgeLedger.RepliesAreRecorded` | native/ros-jtc/bridge.cpp:296-421 | what a reply says has been recorded, and a refusal changes nothing but the sequence number |
| `BridgeLedger.UnknownStopsSends` | native/ros-jtc/bridge.cpp:343-349 | after an unknown send or cancel no new send is entered |
| `BridgeObject.Bridge.Handle` | native/ros-jtc/bridge.cpp:276-423 | each command takes the ledger one step, keeps its invariant and gets the reply its fields and the ledger call for; old sequence numbers and closed windows are refused |
| `BridgeObject.Bridge.AllResolved` | native/ros-jtc/bridge.cpp:314-315 | the loop decides whether any goal is pending |
| `BridgeObject.Bridge.HandleSend` | native/ros-jtc/bridge.cpp:296-350 | a repeated invocation replays the recorded send or is refused; a new one is entered only when nothing is pending, and reported and recorded as the native side answered |
| `BridgeObject.Bridge.CallSend` | native/ros-jtc/bridge.cpp:331-348 | ACCEPTED, REJECTED or UNKNOWN exactly by the native answer and whether it could be reported; pending unless rejected |
| `BridgeObject.Bridge.HandleResult` | native/ros-jtc/bridge.cpp:351-383 | a captured result is replayed; a terminal answer is captured and ends the goal |
| `BridgeObject.Bridge.HandleCancel` | native/ros-jtc/bridge.cpp:384-421 | only owned goals are cancelled, once, and a repeat replays the record |
| `WireScanner.Varint` | native/protocol/strict_wire.cpp:13-23 | the loop reads the base-128 varint at the cursor, refusing truncation and overflow |
| `WireScan.VarintReads` | native/protocol/strict_wire.cpp:13-23 | every valid varint encoding is read back as its value and length |
| `WireScan.VarintFound` | native/protocol/strict_wire.cpp:13-23 | whatever is read as a varint is a valid encoding of its value |
| `WireScanner.LengthDelimited` | native/protocol/strict_wire.cpp:24-33 | finds the delimited body, refusing one that runs past the end |
| `WireScanner.ScanScalar` | native/protocol/strict_wire.cpp:43-77 | consumes exactly one valid scalar of the field's type |
| `WireScan.FiniteDoubleAgrees` | native/protocol/strict_wire.cpp:53-61 | the exponent test on the little-endian integer is the byte-wise one of the grammar |
| `WireScan.WireTypesAgree` | native/protocol/strict_wire.cpp:34-42 | the scanner's wire types are those of the encoding |
| `WireScanner.ScanPacked` | native/protocol/strict_wire.cpp:97-103 | the packed loop spends one unit of budget per scalar and ends at the end of the body |
| `WireScanner.ScanField` | native/protocol/strict_wire.cpp:84-108 | one turn of the message loop: key, repetition and oneof rules, body |
| `WireScanner.ScanMessage` | native/protocol/strict_wire.cpp:78-114 | the loop with its budget, seen and groups sets computes the scan of the bytes |
| `WireScanner.Validate` | native/protocol/strict_wire.cpp:116-124 | accepts exactly the byte strings that are messages of the grammar within both limits |
| `WireScan.AcceptsIffMessage` | native/protocol/strict_wire.cpp:78-124 | the scan accepts exactly concatenations of valid records obeying the singular, oneof, nesting and count rules, on cyclic schemas too |
| `WireScan.OrderDoesNotMatter` | native/protocol/strict_wire.cpp:83-113 | reordering well-formed records, in the message and in every message nested in it, never changes the verdict |
| `WireScan.PermutedAccepted` | native/protocol/strict_wire.cpp:83-113 | in particular any permutation of the outermost records gets the same verdict |
| `WireGrammar.ReorderedMessage` | native/protocol/strict_wire.cpp:78-114 | reordering at any depth keeps validity, cost and length |
| `WireGrammar.AlikeAgree` | native/protocol/strict_wire.cpp:78-114 | records equal up to order at every depth are valid together, cost the same and are as long |
| `Framing.StuffingRoundTrip` | native/dhi/model.py:28-29 | unstuffing undoes stuffing for every body |
| `Framing.StuffedHidesHeader` | native/dhi/model.py:28-31 | no packet header occurs inside a stuffed body |
| `Framing.PacketRoundTrip` | native/dhi/model.py:27-36 | a packet decodes to its ident and original body with a valid checksum |
| `Framing.RawLayout` | native/dhi/model.py:27-36 | header, ident, length low byte first, stuffed body and checksum low byte first sit where a receiver looks for them |
| `Framing.PumpThenMore` | native/dhi/model.py:154-178 | framing what is there and then more bytes equals framing both at once |
| `Framing.TakeFrames` | native/dhi/model.py:168-178 | the inner loop takes every whole frame and stops at the first bad one |
| `Framing.BadFrameEnds` | native/dhi/model.py:169-173 | a wrong header or a length beyond 8192 bytes ends the loop before anything of it is handed over |
| `Framing.SplitIndependent` | native/dhi/model.py:154-178 | however the stream is cut into reads the loop yields the same frames, end and leftover |
| `Framing.PacketsSurviveAnySplit` | native/dhi/model.py:154-178 | packets within 8192 bytes, concatenated and cut anywhere, come back as exactly those packets up to and including the first that `respond` refuses; the loop ends by a refusal exactly when there is one, and otherwise leaves nothing over |
| `Framing.Loop` | native/dhi/model.py:154-178 | the nested loops compute the framing function |
| `Crc.ChecksumPython` | native/dhi/model.py:18-24 | the masked wide-integer loop computes the checksum |
| `Crc.ChecksumCpp` | native/dynamixel/helper.cpp:27-31 | the 16-bit loop computes the same checksum on every input |
| `Crc.ShiftsLinear` | native/dhi/model.py:22-23 | shifting is linear over exclusive or |
| `Crc.ShiftsInjective` | native/dhi/model.py:22-23 | shifting is injective |
| `Crc.TwoBytesInjective` | native/dhi/model.py:18-24 | from any register two bytes can be recovered from the checksum |
| `Crc.AdjacentErrorsDetected` | native/dhi/model.py:18-24 | strings of one length that differ only within two adjacent bytes have different checksums |
| `CrcRemainder.ChecksumIsRemainder` | native/dhi/model.py:18-24 | the message times x^16 is a multiple of x^16 + x^15 + x^2 + 1 plus the checksum |
| `CrcRemainder.FromIsBitByBit` | native/dhi/model.py:18-24 | the byte-wise loop takes in the message bit by bit, highest first |
| `Seccomp.FilterMeetsPolicy` | native/dhi/guardian.c:381-429 | for every list of notified syscalls the filter stays in bounds and returns Kill, Notify, EPERM or Allow by the policy |
| `Seccomp.TestsFrom` | native/dhi/guardian.c:381-429 | started at any test whose predecessors missed, the program ends with the policy's verdict |
| `Seccomp.NotifiedMembers` | native/dhi/guardian.c:381-429 | the notified list holds exactly the open, clone, fork, handle, ring and descriptor-stealing calls that exist |
| `Seccomp.ReportedIsRecognised` | native/dhi/guardian.c:114-147 | a call is reported exactly when a handler recognises it; a clone is allowed only as a thread |
| `Seccomp.ThreadAllowedIff` | native/dhi/guardian.c:186-211 | a thread is let through exactly for clone or a readable clone3 with the thread bit |
| `Seccomp.OpenDecodesAs` | native/dhi/guardian.c:114-147 | which arguments become directory, path and flags, and when openat2 is refused |
| `Seccomp.DispatchByNumber` | native/dhi/guardian.c:494-541 | each reported number goes to its own handler |
| `Seccomp.AsIntWraps` | native/dhi/guardian.c:126-126 | the directory descriptor is the low 32 bits as a signed number |

## Left out

- JSON, regular expressions, XML parsing and BehaviorTree.CPP internals: the models start from parsed values and a plain recursive tick.
- `decode_frame` and `definitions` (frame.cpp, engine.cpp:59-81): field-by-field decoding.
- Clock looks that turn from unusable back to usable within a tick are covered by the tick laws except in `TickExpiry.FailureOverLiveWorkIff`, which takes a view that only expires.
- A controlled tree whose leaves have children or whose branches have not two is covered by `TickOutcomes.SuccessIffAllDone` only under `Shaped`, which validated XML and the BehaviorTree.CPP parser provide.
- Threads and mutexes: operations are atomic at the lock boundaries.
- `compose`, `inspect`, `result` and `recover` of the runtime client, and the field checks of its replies: they add no new file or POST rule.
- ExecutorObject.NewExecutor: refusals of BehaviorTree.CPP's own loader, after the XML check has passed, are not modelled, because that library is not part of this model.
- Engine.Session.HandleInitialize: the size limit and the field checks of engine.cpp:119-121 are not modelled, because the command arrives as a parsed value.
- Environment verification, hashing and the skill's own code in host_runner.py: one pass-or-fail choice each.
- Goal decoding, `inspect` and IPC size limits of the bridge: inputs of the ledger steps.
- UTF-8 checks and protobuf's own parse after the scan (strict_wire.cpp:125-134).
- Instruction dispatch and registers of the device model (model.py:60-89, 106-152): whether `respond` raises is a parameter of the framing loop.
- The counters, resource checks and grants of the guardian's notification loop (guardian.c:539-648).
- The operator application, device packages, drivers and tooling scripts.
