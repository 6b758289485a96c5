/** What an accepted document looks like, written out: tags, attributes and decimal texts. */
module XmlFaces {
  import opened Options
  import opened ExecutorTypes
  import opened XmlTree

  // --- decimal text ---

  function Digit(n: nat): char
    requires n < 10
  {
    "0123456789"[n]
  }

  /** A number as it is usually written. */
  function Spell(n: nat): string {
    if n < 10 then [Digit(n)] else Spell(n / 10) + [Digit(n % 10)]
  }

  function Padding(k: nat): string {
    seq(k, _ => '0')
  }

  lemma DigitReads(n: nat)
    requires n < 10
    ensures '0' <= Digit(n) <= '9' && (Digit(n) - '0') as nat == n
  {}

  lemma DigitSpells(c: char)
    requires '0' <= c <= '9'
    ensures (c - '0') as nat < 10 && Digit((c - '0') as nat) == c
  {}

  lemma OneMoreDigit(s: string, c: char)
    requires Digits(s) && '0' <= c <= '9'
    ensures Digits(s + [c]) && Decimal(s + [c]) == 10 * Decimal(s) + (c - '0') as nat
  {
    assert (s + [c])[..|s|] == s;
  }

  lemma {:induction false} PaddingIsZero(k: nat)
    ensures Digits(Padding(k)) && Decimal(Padding(k)) == 0
    decreases k
  {
    if k > 0 {
      PaddingIsZero(k - 1);
      assert Padding(k) == Padding(k - 1) + ['0'];
      OneMoreDigit(Padding(k - 1), '0');
    }
  }

  lemma {:induction false} SpelledReads(k: nat, n: nat)
    ensures Digits(Padding(k) + Spell(n)) && Decimal(Padding(k) + Spell(n)) == n
    decreases n
  {
    if n < 10 {
      PaddingIsZero(k);
      DigitReads(n);
      OneMoreDigit(Padding(k), Digit(n));
    } else {
      SpelledReads(k, n / 10);
      DigitReads(n % 10);
      OneMoreDigit(Padding(k) + Spell(n / 10), Digit(n % 10));
      assert Padding(k) + Spell(n) == Padding(k) + Spell(n / 10) + [Digit(n % 10)];
    }
  }

  lemma SpellAppends(m: nat, d: nat)
    requires m > 0 && d < 10
    ensures Spell(10 * m + d) == Spell(m) + [Digit(d)]
  {
    assert (10 * m + d) / 10 == m && (10 * m + d) % 10 == d;
  }

  lemma {:induction false} ReadIsSpelled(s: string) returns (k: nat)
    requires s != "" && Digits(s)
    ensures s == Padding(k) + Spell(Decimal(s))
    decreases |s|
  {
    hide Spell, Padding;
    var init, c := s[..|s| - 1], s[|s| - 1];
    var d := (c - '0') as nat;
    DigitSpells(c);
    assert s == init + [c];
    if init == "" {
      k := 0;
      assert Decimal(init) == 0 && Decimal(s) == d;
      SmallSpelled(0, d);
    } else {
      k := ReadIsSpelled(init);
      var m := Decimal(init);
      assert Decimal(s) == 10 * m + d;
      if m == 0 {
        SmallSpelled(k, 0);
        SmallSpelled(k + 1, d);
        k := k + 1;
      } else {
        SpellAppends(m, d);
      }
    }
  }

  /** Padding and one digit. */
  lemma SmallSpelled(k: nat, d: nat)
    requires d < 10
    ensures Padding(0) == "" && Spell(d) == [Digit(d)] && Padding(k + 1) == Padding(k) + "0" && Digit(0) == '0'
  {}

  /** The number read is the one written, leading zeros aside, if it fits 64 bits. */
  lemma FromCharsIff(s: string, n: nat)
    ensures FromChars(s) == Some(n) <==> n < 0x1_0000_0000_0000_0000 && exists k: nat :: s == Padding(k) + Spell(n)
  {
    if FromChars(s) == Some(n) {
      var k := ReadIsSpelled(s);
    }
    forall k: nat | s == Padding(k) + Spell(n) ensures s != "" && Digits(s) && Decimal(s) == n {
      SpelledReads(k, n);
    }
  }

  // --- elements ---

  /** Comments drop out and elements stay, in order. */
  lemma {:induction false} ElementsJoin(a: seq<Xml>, b: seq<Xml>)
    ensures Elements(a + b) == Elements(a) + Elements(b)
    decreases |a|
  {
    if a == [] {
      assert a + b == b;
    } else {
      assert (a + b)[1..] == a[1..] + b;
      ElementsJoin(a[1..], b);
    }
  }

  lemma ElementsOfOne(x: Xml)
    ensures Elements([x]) == if x.Element? then [x] else []
  {}

  /** Tag and attributes of the element for a definition; only a wait has a timeout text. */
  function Face(d: Definition, id: string, timeout: string): (string, map<string, string>) {
    match d.kind
    case Sequence => ("RXSequence", map["node_id" := id])
    case ParallelAll => ("RXParallelAll", map["node_id" := id])
    case Branch => ("RXBranch", map["node_id" := id, "condition_id" := d.argument])
    case Operation => ("RXOperation", map["node_id" := id, "binding" := d.argument])
    case Wait => ("RXWait", map["node_id" := id, "condition_id" := d.argument, "timeout_ns" := timeout])
    case Intervention => ("RXIntervention", map["node_id" := id, "procedure_digest" := d.argument])
  }

  /** The text says this positive number of nanoseconds. */
  ghost predicate Says(text: string, n: nat) {
    0 < n < 0x1_0000_0000_0000_0000 && exists k: nat :: text == Padding(k) + Spell(n)
  }

  /** An element describes a definition exactly when it shows its face, has only elements and comments inside, and
      a branch has two children. */
  lemma DescribesIff(e: Xml, defs: map<string, Definition>, id: string)
    requires id in defs
    ensures Describes(e, defs, id) <==>
            && e.Element? && (forall c | c in e.children :: c.Element? || c.Comment?)
            && (defs[id].kind.Branch? ==> |defs[id].children| == 2)
            && exists text :: (e.name, e.attributes) == Face(defs[id], id, text) &&
                 (defs[id].kind.Wait? ==> Says(text, defs[id].timeoutNs))
  {
    var d := defs[id];
    if Describes(e, defs, id) {
      var text := if d.kind.Wait? then e.attributes["timeout_ns"] else "";
      if d.kind.Wait? {
        FromCharsIff(text, d.timeoutNs);
      }
      FaceShown(e, defs, id, text);
    }
    forall text |
      e.Element? && (e.name, e.attributes) == Face(d, id, text) && (d.kind.Wait? ==> Says(text, d.timeoutNs))
      ensures d.kind.Wait? ==> FromChars(text) == Some(d.timeoutNs)
    {
      FromCharsIff(text, d.timeoutNs);
    }
  }

  lemma FaceShown(e: Xml, defs: map<string, Definition>, id: string, text: string)
    requires id in defs && Describes(e, defs, id)
    requires defs[id].kind.Wait? ==> text == e.attributes["timeout_ns"]
    ensures (e.name, e.attributes) == Face(defs[id], id, text)
  {
    var shown := Face(defs[id], id, text).1;
    assert e.attributes.Keys <= shown.Keys;
    assert forall a | a in shown :: a in e.attributes && e.attributes[a] == shown[a];
    assert e.attributes.Keys == shown.Keys;
    assert e.attributes == shown;
    assert e.name == Face(defs[id], id, text).0;
  }

  // --- the document around the tree ---

  const ROOT_FACE := map["BTCPP_format" := "4", "main_tree_to_execute" := "RXMain"]
  const TREE_FACE := map["ID" := "RXMain"]

  predicate OnlyElementsAndComments(cs: seq<Xml>) {
    forall c | c in cs :: c.Element? || c.Comment?
  }

  /** One root element around one tree element around one node, each with just these attributes. */
  ghost predicate Enveloped(document: seq<Xml>, inRoot: seq<Xml>, inTree: seq<Xml>, first: Xml) {
    && OnlyElementsAndComments(document) && OnlyElementsAndComments(inRoot) && OnlyElementsAndComments(inTree)
    && Elements(document) == [Element("root", ROOT_FACE, inRoot)]
    && Elements(inRoot) == [Element("BehaviorTree", TREE_FACE, inTree)]
    && Elements(inTree) == [first]
  }

  lemma EnvelopeIff(document: seq<Xml>, first: Xml)
    ensures Body(document) == Some(first) <==>
            exists inRoot: seq<Xml>, inTree: seq<Xml> :: Enveloped(document, inRoot, inTree, first)
  {
    if Body(document) == Some(first) {
      Opened(document, first);
    }
    forall inRoot: seq<Xml>, inTree: seq<Xml> | Enveloped(document, inRoot, inTree, first)
      ensures Body(document) == Some(first)
    {
      Sealed(document, inRoot, inTree, first);
    }
  }

  lemma Opened(document: seq<Xml>, first: Xml)
    requires Body(document) == Some(first)
    ensures exists inRoot: seq<Xml>, inTree: seq<Xml> :: Enveloped(document, inRoot, inTree, first)
  {
    hide Elements;
    var root := Elements(document)[0];
    assert root in Elements(document);
    var tree := Elements(root.children)[0];
    assert tree in Elements(root.children);
    assert root.attributes.Keys == ROOT_FACE.Keys && tree.attributes.Keys == TREE_FACE.Keys;
    assert root == Element("root", ROOT_FACE, root.children);
    assert tree == Element("BehaviorTree", TREE_FACE, tree.children);
    assert Enveloped(document, root.children, tree.children, first);
  }

  lemma Sealed(document: seq<Xml>, inRoot: seq<Xml>, inTree: seq<Xml>, first: Xml)
    requires Enveloped(document, inRoot, inTree, first)
    ensures Body(document) == Some(first)
  {
    hide Elements;
    var root := Elements(document)[0];
    assert root.children == inRoot && root.attributes.Keys == {"BTCPP_format", "main_tree_to_execute"};
  }
}
