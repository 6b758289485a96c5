/** The XML allowlist (native/executor/xml.cpp): the tree that will run is
    the unfolding of the resolved definitions, node for node. */
module XmlTree {
  import opened Options
  import opened ExecutorTypes
  import opened Continuity
  import opened BehaviorTree

  /** A parsed document node; Other is text, a declaration or anything else not allowed. */
  datatype Xml =
    | Element(name: string, attributes: map<string, string>, children: seq<Xml>)
    | Comment
    | Other

  function Elements(cs: seq<Xml>): (es: seq<Xml>)
    ensures forall x | x in es :: x in cs && x.Element?
  {
    if cs == [] then []
    else (if cs[0].Element? then [cs[0]] else []) + Elements(cs[1..])
  }

  predicate ChildrenOnly(cs: seq<Xml>) {
    forall c | c in cs :: c.Element? || c.Comment?
  }

  function Tag(k: Kind): string {
    match k
    case Sequence => "RXSequence"
    case ParallelAll => "RXParallelAll"
    case Branch => "RXBranch"
    case Operation => "RXOperation"
    case Wait => "RXWait"
    case Intervention => "RXIntervention"
  }

  function ArgumentName(k: Kind): Option<string> {
    match k
    case Operation => Some("binding")
    case Branch | Wait => Some("condition_id")
    case Intervention => Some("procedure_digest")
    case _ => None
  }

  function Allowed(k: Kind): set<string> {
    {"node_id"} + (if ArgumentName(k).Some? then {ArgumentName(k).value} else {}) +
    (if k.Wait? then {"timeout_ns"} else {})
  }

  predicate Digits(s: string) {
    forall i | 0 <= i < |s| :: '0' <= s[i] <= '9'
  }

  function Decimal(s: string): nat
    requires Digits(s)
  {
    if s == "" then 0 else 10 * Decimal(s[..|s| - 1]) + (s[|s| - 1] - '0') as nat
  }

  const U64 := 0x1_0000_0000_0000_0000

  /** `std::from_chars` over the whole text, 64 bits. */
  function FromChars(s: string): Option<nat> {
    if s != "" && Digits(s) && Decimal(s) < U64 then Some(Decimal(s)) else None
  }

  /** Everything `node` asks of one element, its children's own contents apart. */
  predicate Describes(e: Xml, defs: map<string, Definition>, id: string) {
    && e.Element?
    && "node_id" in e.attributes && e.attributes["node_id"] == id
    && id in defs
    && var d := defs[id];
    && e.name == Tag(d.kind)
    && (ArgumentName(d.kind).Some? ==>
          ArgumentName(d.kind).value in e.attributes && e.attributes[ArgumentName(d.kind).value] == d.argument)
    && (d.kind.Wait? ==>
          && "timeout_ns" in e.attributes
          && FromChars(e.attributes["timeout_ns"]) == Some(d.timeoutNs)
          && d.timeoutNs != 0)
    && e.attributes.Keys <= Allowed(d.kind)
    && ChildrenOnly(e.children)
    && (d.kind.Branch? ==> |d.children| == 2)
  }

  /** `e` is the unfolding of the definitions from `id`. */
  ghost predicate Unfolds(e: Xml, defs: map<string, Definition>, id: string)
    decreases e
  {
    && Describes(e, defs, id)
    && var es := Elements(e.children);
    && |es| == |defs[id].children|
    && forall i | 0 <= i < |es| :: assert es[i] in es; Unfolds(es[i], defs, defs[id].children[i])
  }

  // --- ids, heights ---

  ghost function Ids(e: Xml): seq<string>
    decreases e, 1
  {
    if e.Element? && "node_id" in e.attributes
    then [e.attributes["node_id"]] + IdsOf(e, Elements(e.children))
    else []
  }

  ghost function IdsOf(e: Xml, es: seq<Xml>): seq<string>
    requires e.Element? && forall x | x in es :: x in e.children
    decreases e, 0, |es|
  {
    if es == [] then [] else
      assert es[|es| - 1] in es;
      IdsOf(e, es[..|es| - 1]) + Ids(es[|es| - 1])
  }

  ghost function Height(e: Xml): nat
    decreases e, 1
  {
    if e.Element? then HeightOf(e, Elements(e.children)) else 0
  }

  ghost function HeightOf(e: Xml, es: seq<Xml>): nat
    requires e.Element? && forall x | x in es :: x in e.children
    decreases e, 0, |es|
  {
    if es == [] then 0
    else
      assert es[|es| - 1] in es;
      var h := 1 + Height(es[|es| - 1]);
      if h > HeightOf(e, es[..|es| - 1]) then h else HeightOf(e, es[..|es| - 1])
  }

  ghost predicate Distinct(ids: seq<string>) {
    forall i, j | 0 <= i < j < |ids| :: ids[i] != ids[j]
  }

  ghost function Among(ids: seq<string>): set<string> {
    set x | x in ids
  }

  /** The ids are new and pairwise different. */
  ghost predicate Unused(ids: seq<string>, visited: set<string>) {
    Distinct(ids) && Among(ids) !! visited
  }

  lemma UnusedSplit(a: seq<string>, b: seq<string>, visited: set<string>)
    ensures Unused(a + b, visited) <==> Unused(a, visited) && Unused(b, visited + Among(a))
    ensures Among(a + b) == Among(a) + Among(b)
  {
    var ab := a + b;
    assert forall i | 0 <= i < |a| :: ab[i] == a[i];
    assert forall i | 0 <= i < |b| :: ab[|a| + i] == b[i];
    if Unused(a + b, visited) {
      assert forall i, j | 0 <= i < j < |b| :: b[i] == ab[|a| + i] && b[j] == ab[|a| + j];
      forall x | x in b ensures x !in a {
        var j :| 0 <= j < |b| && b[j] == x;
        assert ab[|a| + j] == x;
      }
      assert Distinct(b);
      assert forall x | x in a :: x in ab;
      assert forall x | x in b :: x in ab;
    }
    if Unused(a, visited) && Unused(b, visited + Among(a)) {
      forall i, j | 0 <= i < j < |ab| ensures ab[i] != ab[j] {
        if i < |a| <= j {
          assert a[i] in Among(a);
          assert b[j - |a|] in Among(b);
        }
      }
    }
  }

  lemma DistinctCount(ids: seq<string>)
    requires Distinct(ids)
    ensures |Among(ids)| == |ids|
  {
    if ids != [] {
      var init := ids[..|ids| - 1];
      DistinctCount(init);
      assert Among(ids) == Among(init) + {ids[|ids| - 1]};
    }
  }

  // --- the recursive check ---

  /** What `node` decides, said without its cursor, visited set or depth counter. */
  ghost predicate Fits(e: Xml, defs: map<string, Definition>, id: string, visited: set<string>, depth: nat) {
    && Unfolds(e, defs, id)
    && Unused(Ids(e), visited)
    && depth + Height(e) <= 64
    && |visited| + |Ids(e)| <= 4096
  }

  /** The ids met once the first `i` children are done. */
  ghost function Met(e: Xml, id: string, i: nat): seq<string>
    requires e.Element? && i <= |Elements(e.children)|
  {
    [id] + IdsOf(e, Elements(e.children)[..i])
  }

  /** `Fits` for `e` with its children cut off after the first `i`. */
  ghost predicate PrefixFits(e: Xml, defs: map<string, Definition>, id: string, visited: set<string>, depth: nat,
                             i: nat)
    requires e.Element? && id in defs && i <= |Elements(e.children)| && i <= |defs[id].children|
  {
    var es := Elements(e.children);
    && AllUnfold(es, defs, defs[id].children, i)
    && Unused(Met(e, id, i), visited)
    && depth + HeightOf(e, es[..i]) <= 64
    && |visited| + |Met(e, id, i)| <= 4096
  }

  ghost predicate FullPrefix(e: Xml, defs: map<string, Definition>, id: string, visited: set<string>, depth: nat)
    requires e.Element? && id in defs
  {
    && |Elements(e.children)| == |defs[id].children|
    && PrefixFits(e, defs, id, visited, depth, |Elements(e.children)|)
  }

  lemma OneMoreChild(e: Xml, id: string, i: nat)
    requires e.Element? && i < |Elements(e.children)|
    ensures var es := Elements(e.children);
            && Met(e, id, i + 1) == Met(e, id, i) + Ids(es[i])
            && HeightOf(e, es[..i + 1]) ==
               if 1 + Height(es[i]) > HeightOf(e, es[..i]) then 1 + Height(es[i]) else HeightOf(e, es[..i])
  {
    hide Elements, Ids, Height;
    var es := Elements(e.children);
    var more := es[..i + 1];
    assert more[..|more| - 1] == es[..i] && more[|more| - 1] == es[i];
  }

  lemma UsedCount(ids: seq<string>, visited: set<string>)
    requires Unused(ids, visited)
    ensures |visited + Among(ids)| == |visited| + |ids|
  {
    DistinctCount(ids);
  }

  ghost predicate AllUnfold(es: seq<Xml>, defs: map<string, Definition>, ids: seq<string>, i: nat)
    requires i <= |es| && i <= |ids|
  {
    forall k | 0 <= k < i :: Unfolds(es[k], defs, ids[k])
  }

  lemma PrefixStep(e: Xml, defs: map<string, Definition>, id: string, visited: set<string>, depth: nat, i: nat)
    requires e.Element? && id in defs && i < |Elements(e.children)| && i < |defs[id].children|
    ensures var child := Elements(e.children)[i];
            var seen := visited + Among(Met(e, id, i));
            && Among(Met(e, id, i + 1)) == Among(Met(e, id, i)) + Among(Ids(child))
            && (PrefixFits(e, defs, id, visited, depth, i + 1) <==>
                && PrefixFits(e, defs, id, visited, depth, i)
                && Fits(child, defs, defs[id].children[i], seen, depth + 1))
  {
    hide Unfolds, Describes, Elements, Ids, Height, HeightOf, Met, Unused, Among;
    var child := Elements(e.children)[i];
    OneMoreChild(e, id, i);
    UnusedSplit(Met(e, id, i), Ids(child), visited);
    if Unused(Met(e, id, i), visited) {
      UsedCount(Met(e, id, i), visited);
    }
  }

  lemma {:induction false} PrefixShorter(
      e: Xml, defs: map<string, Definition>, id: string, visited: set<string>, depth: nat, i: nat, j: nat)
    requires e.Element? && id in defs && i <= j <= |Elements(e.children)| && j <= |defs[id].children|
    requires PrefixFits(e, defs, id, visited, depth, j)
    ensures PrefixFits(e, defs, id, visited, depth, i)
    decreases j - i
  {
    hide PrefixFits, Fits;
    if i < j {
      PrefixStep(e, defs, id, visited, depth, j - 1);
      PrefixShorter(e, defs, id, visited, depth, i, j - 1);
    }
  }

  lemma BadPrefix(e: Xml, defs: map<string, Definition>, id: string, visited: set<string>, depth: nat, i: nat)
    requires e.Element? && id in defs && i <= |Elements(e.children)| && i <= |defs[id].children|
    requires !PrefixFits(e, defs, id, visited, depth, i)
    ensures !FullPrefix(e, defs, id, visited, depth)
  {
    hide PrefixFits;
    var n := |Elements(e.children)|;
    if n == |defs[id].children| && PrefixFits(e, defs, id, visited, depth, n) {
      PrefixShorter(e, defs, id, visited, depth, i, n);
    }
  }

  lemma EmptyPrefix(e: Xml, defs: map<string, Definition>, id: string, visited: set<string>, depth: nat)
    requires e.Element? && id in defs
    ensures Met(e, id, 0) == [id] && Among(Met(e, id, 0)) == {id}
    ensures depth <= 64 && |visited| < 4096 && id !in visited ==> PrefixFits(e, defs, id, visited, depth, 0)
  {}

  lemma FitsIsFullPrefix(e: Xml, defs: map<string, Definition>, id: string, visited: set<string>, depth: nat)
    requires e.Element? && Describes(e, defs, id)
    ensures Fits(e, defs, id, visited, depth) <==> FullPrefix(e, defs, id, visited, depth)
  {
    var es := Elements(e.children);
    assert es[..|es|] == es;
  }

  /** `node`: recursive, with the visited set and the child cursor of the source. */
  method ValidateNode(e: Xml, defs: map<string, Definition>, id: string, visited: set<string>, depth: nat)
    returns (ok: bool, seen: set<string>)
    requires e.Element?
    ensures ok <==> Fits(e, defs, id, visited, depth)
    ensures ok ==> seen == visited + Among(Ids(e))
    decreases e, 1
  {
    if !Describes(e, defs, id) {
      return false, visited;
    }
    FitsIsFullPrefix(e, defs, id, visited, depth);
    if depth > 64 || |visited| >= 4096 || id in visited {
      assert id in Among(Ids(e));
      return false, visited;
    }
    ok, seen := ValidateChildren(e, defs, id, visited, depth);
    assert Ids(e) == Met(e, id, |Elements(e.children)|) by {
      assert Elements(e.children)[..|Elements(e.children)|] == Elements(e.children);
    }
  }

  method ValidateChildren(e: Xml, defs: map<string, Definition>, id: string, visited: set<string>, depth: nat)
    returns (ok: bool, seen: set<string>)
    requires e.Element? && id in defs
    requires depth <= 64 && |visited| < 4096 && id !in visited
    ensures ok <==> FullPrefix(e, defs, id, visited, depth)
    ensures ok ==> seen == visited + Among(Met(e, id, |Elements(e.children)|))
    decreases e, 0, 1
  {
    ok, seen := true, visited + {id};
    var es := Elements(e.children);
    EmptyPrefix(e, defs, id, visited, depth);
    var i := 0;
    while ok && i < |defs[id].children|
      invariant ok ==> i <= |es| && i <= |defs[id].children|
      invariant ok ==> PrefixFits(e, defs, id, visited, depth, i) && seen == visited + Among(Met(e, id, i))
      invariant !ok ==> !FullPrefix(e, defs, id, visited, depth)
      decreases ok, |defs[id].children| - i
    {
      ok, seen := NextChild(e, defs, id, visited, depth, seen, i);
      i := i + 1;
    }
    ok := ok && i == |es|;
  }

  /** Child `i`, if there is one, against what is expected there. */
  method NextChild(e: Xml, defs: map<string, Definition>, id: string, visited: set<string>, depth: nat,
                   before: set<string>, i: nat)
    returns (ok: bool, seen: set<string>)
    requires e.Element? && id in defs && i < |defs[id].children| && i <= |Elements(e.children)|
    requires PrefixFits(e, defs, id, visited, depth, i) && before == visited + Among(Met(e, id, i))
    ensures ok ==> i < |Elements(e.children)| && PrefixFits(e, defs, id, visited, depth, i + 1)
                   && seen == visited + Among(Met(e, id, i + 1))
    ensures !ok ==> !FullPrefix(e, defs, id, visited, depth)
    decreases e, 0, 0
  {
    var es := Elements(e.children);
    if i == |es| {
      return false, before;
    }
    assert es[i] in es;
    ok, seen := ValidateNode(es[i], defs, defs[id].children[i], before, depth + 1);
    PrefixStep(e, defs, id, visited, depth, i);
    if !ok {
      BadPrefix(e, defs, id, visited, depth, i + 1);
    }
  }

  // --- the document ---

  predicate Attributes(e: Xml, names: set<string>)
    requires e.Element?
  {
    e.attributes.Keys <= names
  }

  /** The fixed frame around the one tree; yields its root element. */
  function Body(document: seq<Xml>): Option<Xml> {
    if !ChildrenOnly(document) || |Elements(document)| != 1 then None
    else
      var root := Elements(document)[0];
      if root.name != "root" || !Attributes(root, {"BTCPP_format", "main_tree_to_execute"})
         || !ChildrenOnly(root.children)
         || "BTCPP_format" !in root.attributes || root.attributes["BTCPP_format"] != "4"
         || "main_tree_to_execute" !in root.attributes || root.attributes["main_tree_to_execute"] != "RXMain"
         || |Elements(root.children)| != 1 then None
      else
        var tree := Elements(root.children)[0];
        if tree.name != "BehaviorTree" || !Attributes(tree, {"ID"}) || !ChildrenOnly(tree.children)
           || "ID" !in tree.attributes || tree.attributes["ID"] != "RXMain"
           || |Elements(tree.children)| != 1 then None
        else Some(Elements(tree.children)[0])
  }

  /** The document is exactly the resolved process: each definition once, nothing else. */
  ghost predicate IsResolvedProcess(document: seq<Xml>, c: Config) {
    && Body(document).Some?
    && Unfolds(Body(document).value, c.definitions, c.root)
    && Distinct(Ids(Body(document).value))
    && Among(Ids(Body(document).value)) == c.definitions.Keys
    && Height(Body(document).value) <= 64
  }

  method ValidateXml(document: seq<Xml>, c: Config) returns (ok: bool)
    requires ValidConfig(c)
    ensures ok <==> IsResolvedProcess(document, c)
  {
    var body := Body(document);
    if body.None? {
      return false;
    }
    var first := body.value;
    if !first.Element? {
      return false;
    }
    var fine, visited := ValidateNode(first, c.definitions, c.root, {}, 0);
    if Distinct(Ids(first)) {
      DistinctCount(Ids(first));
    }
    if fine {
      UnfoldingIsDefined(first, c.definitions, c.root);
      SubsetOfSameSize(visited, c.definitions.Keys);
    }
    return fine && |visited| == |c.definitions|;
  }

  lemma SubsetOfSameSize<T>(a: set<T>, b: set<T>)
    requires a <= b
    ensures |a| <= |b|
    ensures |a| == |b| <==> a == b
  {
    assert b == a + (b - a);
    assert |b| == |a| + |b - a|;
  }

  lemma {:induction false} UnfoldingIsDefined(e: Xml, defs: map<string, Definition>, id: string)
    requires Unfolds(e, defs, id)
    ensures Among(Ids(e)) <= defs.Keys
    decreases e, 1
  {
    UnfoldingsAreDefined(e, defs, id, Elements(e.children), |Elements(e.children)|);
    assert Elements(e.children)[..|Elements(e.children)|] == Elements(e.children);
  }

  lemma {:induction false} UnfoldingsAreDefined(e: Xml, defs: map<string, Definition>, id: string, es: seq<Xml>, i: nat)
    requires Unfolds(e, defs, id) && es == Elements(e.children) && i <= |es|
    ensures Among(IdsOf(e, es[..i])) <= defs.Keys
    decreases e, 0, i
  {
    if i > 0 {
      UnfoldingsAreDefined(e, defs, id, es, i - 1);
      UnfoldingIsDefined(es[i - 1], defs, defs[id].children[i - 1]);
      assert es[..i][..i - 1] == es[..i - 1];
    }
  }
}
