/** What acceptance of the XML gives the executor: a tree that agrees with the definitions,
    and a rank under which the id-by-id recursions of nodes.cpp:94-122 terminate. */
module XmlUnfolding {
  import opened ExecutorTypes
  import opened Continuity
  import opened BehaviorTree
  import opened TickLaws
  import opened TickOutcomes
  import opened XmlTree

  // --- a rank for the definitions ---

  /** Every listed child is ranked strictly below its parent. */
  ghost predicate Descends(rank: map<string, nat>, defs: map<string, Definition>) {
    forall n | n in rank ::
      n in defs && forall k | 0 <= k < |defs[n].children| ::
        defs[n].children[k] in rank && rank[defs[n].children[k]] < rank[n]
  }

  ghost predicate Ranked(rank: map<string, nat>, defs: map<string, Definition>) {
    rank.Keys == defs.Keys && Descends(rank, defs)
  }

  ghost function Ranks(e: Xml): map<string, nat>
    decreases e, 1
  {
    if e.Element? && "node_id" in e.attributes
    then RanksOf(e, Elements(e.children))[e.attributes["node_id"] := Height(e)]
    else map[]
  }

  ghost function RanksOf(e: Xml, es: seq<Xml>): map<string, nat>
    requires e.Element? && forall x | x in es :: x in e.children
    decreases e, 0, |es|
  {
    if es == [] then map[] else
      assert es[|es| - 1] in es;
      RanksOf(e, es[..|es| - 1]) + Ranks(es[|es| - 1])
  }

  lemma {:induction false} RanksDescend(e: Xml, defs: map<string, Definition>, id: string)
    requires Unfolds(e, defs, id) && Distinct(Ids(e))
    ensures Ranks(e).Keys == Among(Ids(e))
    ensures Descends(Ranks(e), defs)
    ensures Ranks(e)[id] == Height(e)
    decreases e, 1
  {
    var es := Elements(e.children);
    assert es[..|es|] == es;
    assert Ids(e) == [id] + IdsOf(e, es);
    UnusedSplit([id], IdsOf(e, es), {});
    ChildRanksDescend(e, defs, id, |es|);
    assert defs[id].children[..|es|] == defs[id].children;
    OnTop(RanksOf(e, es), defs, id, Height(e));
  }

  ghost predicate Below(rank: map<string, nat>, names: seq<string>, h: nat) {
    forall k | 0 <= k < |names| :: names[k] in rank && rank[names[k]] < h
  }

  lemma OnTop(rank: map<string, nat>, defs: map<string, Definition>, id: string, h: nat)
    requires Descends(rank, defs) && id in defs && id !in rank && Below(rank, defs[id].children, h)
    ensures Descends(rank[id := h], defs)
  {}

  /** The same for the first `i` children of `e` together. */
  lemma {:induction false} ChildRanksDescend(e: Xml, defs: map<string, Definition>, id: string, i: nat)
    requires Unfolds(e, defs, id) && i <= |Elements(e.children)|
    requires Distinct(IdsOf(e, Elements(e.children)[..i]))
    ensures var es := Elements(e.children)[..i];
            var r := RanksOf(e, es);
            && r.Keys == Among(IdsOf(e, es))
            && Descends(r, defs)
            && Below(r, defs[id].children[..i], HeightOf(e, es))
    decreases e, 0, i
  {
    if i > 0 {
      LastChild(e, i);
      var all := Elements(e.children);
      var init, child, name := all[..i - 1], all[i - 1], defs[id].children[i - 1];
      UnusedSplit(IdsOf(e, init), Ids(child), {});
      ChildRanksDescend(e, defs, id, i - 1);
      RanksDescend(child, defs, name);
      var a, b := RanksOf(e, init), Ranks(child);
      assert a.Keys !! b.Keys;
      Merged(a, b, defs);
      OneMoreBelow(a, b, defs[id].children, i, HeightOf(e, init), HeightOf(e, all[..i]));
    }
  }

  lemma LastChild(e: Xml, i: nat)
    requires e.Element? && 0 < i <= |Elements(e.children)|
    ensures var all := Elements(e.children);
            && all[i - 1] in e.children
            && RanksOf(e, all[..i]) == RanksOf(e, all[..i - 1]) + Ranks(all[i - 1])
            && IdsOf(e, all[..i]) == IdsOf(e, all[..i - 1]) + Ids(all[i - 1])
            && HeightOf(e, all[..i - 1]) <= HeightOf(e, all[..i])
            && Height(all[i - 1]) < HeightOf(e, all[..i])
  {
    hide Elements, Height, Ranks, Ids;
    var all := Elements(e.children);
    assert forall x | x in all :: x in e.children;
    assert all[i - 1] in all;
    var es := all[..i];
    assert es[..|es| - 1] == all[..i - 1] && es[|es| - 1] == all[i - 1];
  }

  lemma Merged(a: map<string, nat>, b: map<string, nat>, defs: map<string, Definition>)
    requires Descends(a, defs) && Descends(b, defs) && a.Keys !! b.Keys
    ensures Descends(a + b, defs)
  {}

  lemma OneMoreBelow(a: map<string, nat>, b: map<string, nat>, names: seq<string>, i: nat, h: nat, g: nat)
    requires a.Keys !! b.Keys && 0 < i <= |names| && h <= g
    requires Below(a, names[..i - 1], h)
    requires names[i - 1] in b && b[names[i - 1]] < g
    ensures Below(a + b, names[..i], g)
  {
    forall k | 0 <= k < i ensures names[k] in a + b && (a + b)[names[k]] < g {
      if k < i - 1 {
        assert names[..i - 1][k] == names[k];
      }
    }
  }

  /** Acceptance yields a rank of all definitions, so recursion over them is well founded. */
  lemma AcceptedIsRanked(document: seq<Xml>, c: Config)
    requires IsResolvedProcess(document, c)
    ensures Ranked(Ranks(Body(document).value), c.definitions)
  {
    RanksDescend(Body(document).value, c.definitions, c.root);
  }

  // --- the tree that runs ---

  function Build(e: Xml, defs: map<string, Definition>, id: string): Tree
    requires Unfolds(e, defs, id)
    decreases e
  {
    var es := Elements(e.children);
    Tree(id, defs[id].kind,
         seq(|es|, i requires 0 <= i < |es| => assert es[i] in es; Build(es[i], defs, defs[id].children[i])))
  }

  /** Each node's id is defined and its kind is the defined one. */
  ghost predicate Agrees(t: Tree, defs: map<string, Definition>) {
    && t.id in defs && defs[t.id].kind == t.kind
    && forall i | 0 <= i < |t.children| :: Agrees(t.children[i], defs)
  }

  ghost predicate LeavesBare(defs: map<string, Definition>) {
    forall n | n in defs && IsLeaf(defs[n].kind) :: defs[n].children == []
  }

  lemma {:induction false} BuildAgrees(e: Xml, defs: map<string, Definition>, id: string)
    requires Unfolds(e, defs, id)
    ensures Agrees(Build(e, defs, id), defs)
    ensures LeavesBare(defs) ==> Shaped(Build(e, defs, id))
    decreases e
  {
    var es := Elements(e.children);
    forall i | 0 <= i < |es|
      ensures Agrees(Build(es[i], defs, defs[id].children[i]), defs)
      ensures LeavesBare(defs) ==> Shaped(Build(es[i], defs, defs[id].children[i]))
    {
      assert es[i] in es;
      BuildAgrees(es[i], defs, defs[id].children[i]);
    }
  }

  /** A frame that passes the per-node checks binds operations at operation nodes only. */
  lemma {:induction false} AcceptedKinds(t: Tree, defs: map<string, Definition>, m: Memory, nodes: Nodes)
    requires Agrees(t, defs) && NodesFit(defs, m, nodes)
    ensures KindsRespected(t, nodes)
  {
    forall x | Active(x, t, nodes) && Shown(nodes, x.id).operationId.Some? ensures x.kind.Operation? {
      ActiveAgrees(x, t, defs, nodes);
      assert NodeFits(defs, m, x.id, nodes[x.id]);
    }
  }

  lemma {:induction false} ActiveAgrees(x: Tree, t: Tree, defs: map<string, Definition>, nodes: Nodes)
    requires Agrees(t, defs) && Active(x, t, nodes)
    ensures x.id in defs && defs[x.id].kind == x.kind
    decreases t
  {
    if x != t {
      var i :| Open(t, nodes, i) && Active(x, t.children[i], nodes);
      ActiveAgrees(x, t.children[i], defs, nodes);
    }
  }

  // --- the searches as the source writes them: by id, over the definitions ---

  function SearchById(p: Probe, defs: map<string, Definition>, ghost rank: map<string, nat>, id: string,
                      nodes: Nodes, u: Clock, at: nat): (r: (bool, nat))
    requires Ranked(rank, defs) && id in defs
    decreases rank[id], |defs[id].children| + 1
  {
    var v := Seen(nodes, id, u(at));
    var d := defs[id];
    if Hit(p, d.kind, v) then (true, at + 1)
    else
      var lo, hi := FirstOpen(d.kind, |d.children|, v), EndOpen(d.kind, |d.children|, v);
      SearchChildren(p, defs, rank, id, lo, hi, nodes, u, at + 1)
  }

  function SearchChildren(p: Probe, defs: map<string, Definition>, ghost rank: map<string, nat>, id: string,
                          i: nat, hi: nat, nodes: Nodes, u: Clock, at: nat): (r: (bool, nat))
    requires Ranked(rank, defs) && id in defs && i <= hi <= |defs[id].children|
    decreases rank[id], hi - i
  {
    if i == hi then (false, at)
    else
      var (found, next) := SearchById(p, defs, rank, defs[id].children[i], nodes, u, at);
      if found then (true, next) else SearchChildren(p, defs, rank, id, i + 1, hi, nodes, u, next)
  }

  /** On an accepted document the recursion by id is the recursion on the running tree. */
  lemma {:induction false} SearchByIdIsSearch(
      p: Probe, e: Xml, defs: map<string, Definition>, rank: map<string, nat>, id: string,
      nodes: Nodes, u: Clock, at: nat)
    requires Unfolds(e, defs, id) && Ranked(rank, defs)
    ensures SearchById(p, defs, rank, id, nodes, u, at) == Search(p, Build(e, defs, id), nodes, u, at)
    decreases e, |defs[id].children| + 1
  {
    var v := Seen(nodes, id, u(at));
    var d := defs[id];
    if !Hit(p, d.kind, v) {
      SearchChildrenIsSearch(p, e, defs, rank, id, FirstOpen(d.kind, |d.children|, v),
                             EndOpen(d.kind, |d.children|, v), nodes, u, at + 1);
    }
  }

  /** The i-th child of the built tree is built from the i-th child element. */
  lemma ChildBuilt(e: Xml, defs: map<string, Definition>, id: string, i: nat)
    requires Unfolds(e, defs, id) && i < |defs[id].children|
    ensures e.Element? && id in defs && i < |Elements(e.children)| && Elements(e.children)[i] in e.children
    ensures Unfolds(Elements(e.children)[i], defs, defs[id].children[i])
    ensures |Build(e, defs, id).children| == |defs[id].children|
    ensures Build(e, defs, id).children[i] == Build(Elements(e.children)[i], defs, defs[id].children[i])
  {
    assert Elements(e.children)[i] in Elements(e.children);
  }

  lemma {:induction false} SearchChildrenIsSearch(
      p: Probe, e: Xml, defs: map<string, Definition>, rank: map<string, nat>, id: string, i: nat, hi: nat,
      nodes: Nodes, u: Clock, at: nat)
    requires Unfolds(e, defs, id) && Ranked(rank, defs) && i <= hi <= |defs[id].children|
    ensures SearchChildren(p, defs, rank, id, i, hi, nodes, u, at)
            == SearchFrom(p, Build(e, defs, id), i, hi, nodes, u, at)
    decreases e, hi - i
  {
    hide Unfolds, Build, Elements, Hit, Seen;
    if i < hi {
      ChildBuilt(e, defs, id, i);
      var child, name := Elements(e.children)[i], defs[id].children[i];
      SearchByIdIsSearch(p, child, defs, rank, name, nodes, u, at);
      var (found, next) := SearchById(p, defs, rank, name, nodes, u, at);
      if !found {
        SearchChildrenIsSearch(p, e, defs, rank, id, i + 1, hi, nodes, u, next);
      }
    }
  }
}
