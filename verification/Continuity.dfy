/** Frame acceptance and continuity memory of `Context::publish`
    (native/executor/runtime.cpp:22-86), on values. */
module Continuity {
  import opened Options
  import opened ExecutorTypes

  datatype Config = Config(identity: Identity, root: string, definitions: map<string, Definition>)

  predicate ValidConfig(c: Config) {
    && c.identity.run != "" && c.identity.executorSession != ""
    && |c.identity.resolvedDigest| == 64
    && c.identity.visit > 0 && c.identity.epoch > 0
    && 0 < |c.definitions| <= 4096
    && c.root in c.definitions
  }

  /** The four continuity maps. */
  datatype Memory = Memory(
    operations: map<string, string>,
    outcomes: map<string, Outcome>,
    decisions: map<string, (string, bool)>,
    waits: map<string, (string, WaitState)>)

  const FORGETFUL := Memory(map[], map[], map[], map[])

  predicate SourceCurrent(f: Frame, r: Reading) {
    f.deadline.Some? ==>
      && r.source.Some?
      && r.source.value.clockId == f.deadline.value.clockId
      && f.deadline.value.checkedAtNs <= r.source.value.ticksNs < f.deadline.value.validUntilNs
  }

  predicate Fresh(f: Frame, r: Reading) {
    r.steady < f.validUntil && SourceCurrent(f, r)
  }

  /** The per-node checks, in the order of the source. */
  predicate NodeFits(defs: map<string, Definition>, m: Memory, n: string, v: Observation) {
    && n in defs
    && v.operationId != Some("")
    && (v.released ==> v.operationId.Some? && !v.outcome.NoOutcome? && v.integrityValid)
    && (!v.outcome.NoOutcome? ==> v.operationId.Some?)
    && (n in m.outcomes ==> m.outcomes[n] == v.outcome)
    && (!defs[n].kind.Operation? ==> v.operationId.None? && v.outcome.NoOutcome? && !v.released)
    && (!defs[n].kind.Branch? ==> v.branch.None?)
    && (!defs[n].kind.Wait? ==> v.wait.Waiting?)
    && (!defs[n].kind.Intervention? ==> v.clearance.None?)
    && (!v.wait.Waiting? ==> v.decisionId.Some?)
    && (n in m.waits ==> v.decisionId.Some? && m.waits[n] == (v.decisionId.value, v.wait))
    && v.decisionId != Some("")
    && v.clearance != Some("")
    && (v.operationId.Some? ==>
          && (n in m.operations ==> m.operations[n] == v.operationId.value)
          && forall other | other in m.operations && other != n :: m.operations[other] != v.operationId.value)
    && (v.branch.Some? ==>
          && v.decisionId.Some?
          && (n in m.decisions ==> m.decisions[n] == (v.decisionId.value, v.branch.value)))
  }

  predicate NodesFit(defs: map<string, Definition>, m: Memory, nodes: map<string, Observation>) {
    forall n | n in nodes :: NodeFits(defs, m, n, nodes[n])
  }

  predicate KeepsOperation(m: Memory, nodes: map<string, Observation>, n: string)
    requires n in m.operations
  {
    n in nodes && nodes[n].operationId == Some(m.operations[n])
  }

  predicate KeepsDecision(m: Memory, nodes: map<string, Observation>, n: string)
    requires n in m.decisions
  {
    n in nodes && nodes[n].decisionId == Some(m.decisions[n].0) && nodes[n].branch == Some(m.decisions[n].1)
  }

  predicate KeepsWait(m: Memory, nodes: map<string, Observation>, n: string)
    requires n in m.waits
  {
    n in nodes && nodes[n].decisionId == Some(m.waits[n].0) && nodes[n].wait == m.waits[n].1
  }

  /** A complete view may not lose anything committed. */
  predicate Keeps(m: Memory, nodes: map<string, Observation>) {
    && (forall n | n in m.operations :: KeepsOperation(m, nodes, n))
    && (forall n | n in m.decisions :: KeepsDecision(m, nodes, n))
    && (forall n | n in m.waits :: KeepsWait(m, nodes, n))
  }

  /** The whole acceptance test; `last` is the frame currently held. */
  predicate Accepts(c: Config, m: Memory, last: Option<Frame>, f: Frame, r: Reading) {
    && SourceCurrent(f, r)
    && f.identity == c.identity
    && (last.Some? ==> last.value.revision <= f.revision)
    && f.eligible <= c.definitions.Keys
    && NodesFit(c.definitions, m, f.nodes)
    && (f.complete ==> Keeps(m, f.nodes))
  }

  /** What one frame says, as memory. */
  ghost function Projection(nodes: map<string, Observation>): Memory {
    Memory(
      map n | n in nodes && nodes[n].operationId.Some? :: nodes[n].operationId.value,
      map n | n in nodes && !nodes[n].outcome.NoOutcome? :: nodes[n].outcome,
      map n | n in nodes && nodes[n].branch.Some? && nodes[n].decisionId.Some?
        :: (nodes[n].decisionId.value, nodes[n].branch.value),
      map n | n in nodes && !nodes[n].wait.Waiting? && nodes[n].decisionId.Some?
        :: (nodes[n].decisionId.value, nodes[n].wait))
  }

  ghost function Remember(m: Memory, nodes: map<string, Observation>): Memory {
    var p := Projection(nodes);
    Memory(m.operations + p.operations, m.outcomes + p.outcomes, m.decisions + p.decisions, m.waits + p.waits)
  }

  ghost predicate Within<K, V>(a: map<K, V>, b: map<K, V>) {
    forall k | k in a :: k in b && b[k] == a[k]
  }

  /** `b` remembers everything `a` does and binds it alike. */
  ghost predicate Grows(a: Memory, b: Memory) {
    && Within(a.operations, b.operations)
    && Within(a.outcomes, b.outcomes)
    && Within(a.decisions, b.decisions)
    && Within(a.waits, b.waits)
  }

  /** Outcomes are remembered for bound operations only, and only committed facts are remembered. */
  ghost predicate Grounded(m: Memory) {
    && m.outcomes.Keys <= m.operations.Keys
    && (forall n | n in m.outcomes :: !m.outcomes[n].NoOutcome?)
    && (forall n | n in m.waits :: !m.waits[n].1.Waiting?)
  }

  ghost predicate Injective(ops: map<string, string>) {
    forall a, b | a in ops && b in ops && ops[a] == ops[b] :: a == b
  }

  ghost predicate OwnIdsDistinct(nodes: map<string, Observation>) {
    Injective(Projection(nodes).operations)
  }

  /** Acceptance never rebinds. */
  lemma AcceptedGrows(c: Config, m: Memory, last: Option<Frame>, f: Frame, r: Reading)
    requires Accepts(c, m, last, f, r)
    ensures Grows(m, Remember(m, f.nodes))
    ensures Grounded(m) ==> Grounded(Remember(m, f.nodes))
  {
    hide Projection, NodesFit;
    var p := Projection(f.nodes);
    forall n | n in f.nodes ensures Consistent(m, p, n) {
      FitsConsistently(c.definitions, m, f.nodes, n);
    }
    ProjectionGrounded(c.definitions, m, f.nodes);
  }

  /** What is said of a node agrees with what is remembered of it. */
  ghost predicate Consistent(m: Memory, p: Memory, n: string) {
    && (n in m.operations && n in p.operations ==> m.operations[n] == p.operations[n])
    && (n in m.outcomes && n in p.outcomes ==> m.outcomes[n] == p.outcomes[n])
    && (n in m.decisions && n in p.decisions ==> m.decisions[n] == p.decisions[n])
    && (n in m.waits && n in p.waits ==> m.waits[n] == p.waits[n])
  }

  lemma FitsConsistently(defs: map<string, Definition>, m: Memory, nodes: map<string, Observation>, n: string)
    requires NodesFit(defs, m, nodes) && n in nodes
    ensures Consistent(m, Projection(nodes), n)
  {
    assert NodeFits(defs, m, n, nodes[n]);
  }

  lemma ProjectionGrounded(defs: map<string, Definition>, m: Memory, nodes: map<string, Observation>)
    requires NodesFit(defs, m, nodes)
    ensures var p := Projection(nodes);
            && Grounded(p) && p.operations.Keys <= nodes.Keys && p.outcomes.Keys <= nodes.Keys
            && p.decisions.Keys <= nodes.Keys && p.waits.Keys <= nodes.Keys
  {
    forall n | n in nodes ensures NodeFits(defs, m, n, nodes[n]) {}
  }

  /** After an accepted complete frame the memory is that frame's projection, no more and no less. */
  lemma CompleteIsProjection(c: Config, m: Memory, last: Option<Frame>, f: Frame, r: Reading)
    requires Accepts(c, m, last, f, r) && f.complete && Grounded(m)
    ensures Remember(m, f.nodes) == Projection(f.nodes)
  {
    hide Projection, NodesFit, Keeps, Grounded, Within;
    var p := Projection(f.nodes);
    KeptOperations(c.definitions, m, f.nodes);
    KeptChoices(m, f.nodes);
    Absorbed(m.operations, p.operations);
    Absorbed(m.outcomes, p.outcomes);
    Absorbed(m.decisions, p.decisions);
    Absorbed(m.waits, p.waits);
  }

  lemma KeptOperations(defs: map<string, Definition>, m: Memory, nodes: map<string, Observation>)
    requires NodesFit(defs, m, nodes) && Keeps(m, nodes) && Grounded(m)
    ensures Within(m.operations, Projection(nodes).operations)
    ensures Within(m.outcomes, Projection(nodes).outcomes)
  {
    var p := Projection(nodes);
    forall n | n in m.operations ensures n in p.operations && p.operations[n] == m.operations[n] {
      assert KeepsOperation(m, nodes, n);
    }
    forall n | n in m.outcomes ensures n in p.outcomes && p.outcomes[n] == m.outcomes[n] {
      assert n in m.operations && KeepsOperation(m, nodes, n);
      assert NodeFits(defs, m, n, nodes[n]);
    }
  }

  lemma KeptChoices(m: Memory, nodes: map<string, Observation>)
    requires Keeps(m, nodes) && Grounded(m)
    ensures Within(m.decisions, Projection(nodes).decisions)
    ensures Within(m.waits, Projection(nodes).waits)
  {
    var p := Projection(nodes);
    forall n | n in m.decisions ensures n in p.decisions && p.decisions[n] == m.decisions[n] {
      assert KeepsDecision(m, nodes, n);
    }
    forall n | n in m.waits ensures n in p.waits && p.waits[n] == m.waits[n] {
      assert KeepsWait(m, nodes, n);
    }
  }

  lemma Absorbed<K, V>(a: map<K, V>, b: map<K, V>)
    requires Within(a, b)
    ensures a + b == b
  {}

  /** The shared-operation test compares with memory only, so injectivity of the
      remembered ids survives a frame exactly when the frame's own ids are distinct. */
  lemma InjectivityKeptIff(c: Config, m: Memory, last: Option<Frame>, f: Frame, r: Reading)
    requires Accepts(c, m, last, f, r) && Injective(m.operations)
    ensures Injective(Remember(m, f.nodes).operations) <==> OwnIdsDistinct(f.nodes)
  {
    var p := Projection(f.nodes).operations;
    var q := Remember(m, f.nodes).operations;
    forall n | n in p ensures n in q && q[n] == p[n] && NodeFits(c.definitions, m, n, f.nodes[n]) {}
    if OwnIdsDistinct(f.nodes) {
      forall a, b | a in q && b in q && q[a] == q[b] ensures a == b {
        if a in p && b in p {
          assert p[a] == p[b];
        }
      }
    }
    if Injective(q) {
      forall a, b | a in p && b in p && p[a] == p[b] ensures a == b {
        assert q[a] == q[b];
      }
    }
  }

  /** Once two nodes share a remembered id, no complete frame is acceptable any more. */
  lemma SharedIdRejectsComplete(c: Config, m: Memory, last: Option<Frame>, f: Frame, r: Reading)
    requires !Injective(m.operations) && f.complete
    ensures !Accepts(c, m, last, f, r)
  {
    var a, b :| a in m.operations && b in m.operations && m.operations[a] == m.operations[b] && a != b;
    if KeepsOperation(m, f.nodes, a) {
      assert m.operations[b] == f.nodes[a].operationId.value;
      assert !NodeFits(c.definitions, m, a, f.nodes[a]);
    } else {
      assert !Keeps(m, f.nodes);
    }
  }
}
