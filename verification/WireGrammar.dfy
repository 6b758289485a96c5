/** The strict protobuf wire format as a grammar: what native/protocol/strict_wire.cpp:13-124 accepts,
    said without a cursor.  Varints, records and packed fields are those of the Protocol Buffers
    Encoding specification ("Base 128 Varints", "Message Structure", "Length-Delimited Records"). */
module WireGrammar {
  import opened Options
  import opened ByteStrings

  // --- schemas ---

  datatype FieldType =
    | DoubleType | FloatType
    | Fixed64Type | Fixed32Type            // with their signed twins
    | BoolType
    | UInt32Type | SInt32Type
    | OtherVarint                          // int32, int64, uint64, sint64
    | EnumType(numbers: set<int>)
    | TextType                             // string, bytes
    | MessageType(name: string)
    | GroupType

  datatype Field = Field(kind: FieldType, repeated: bool, isMap: bool, oneof: Option<string>)

  /** `required` are the oneofs that are not synthetic. */
  datatype Descriptor = Descriptor(fields: map<int, Field>, required: set<string>)

  /** Message types refer to one another by name, cycles included. */
  type Schema = map<string, Descriptor>

  /** Wire types of the Protocol Buffers Encoding specification ("Message Structure"): 0 varint, 1 eight bytes,
      2 length-delimited, 5 four bytes.  Groups (3 and 4) are not carried. */
  predicate Carried(k: FieldType, wire: int) {
    match wire
    case 0 => k.BoolType? || k.UInt32Type? || k.SInt32Type? || k.OtherVarint? || k.EnumType?
    case 1 => k.DoubleType? || k.Fixed64Type?
    case 2 => k.TextType? || k.MessageType?
    case 5 => k.FloatType? || k.Fixed32Type?
    case _ => false
  }

  // --- varints ---

  /** From the k-th byte of a varint on: continuation bytes, then a last one; the tenth is at most 1. */
  predicate VarintFrom(e: Bytes, k: nat) {
    && e != []
    && (k == 9 ==> e[0] <= 1)
    && (if e[0] < 128 then |e| == 1 else k < 9 && VarintFrom(e[1..], k + 1))
  }

  predicate IsVarint(e: Bytes) {
    VarintFrom(e, 0)
  }

  function VarintValue(e: Bytes): nat {
    if e == [] then 0 else e[0] % 128 + 128 * VarintValue(e[1..])
  }

  // --- scalars ---

  /** IEEE 754: an exponent of all ones is an infinity or a NaN. */
  predicate FiniteDouble(raw: Bytes)
    requires |raw| == 8
  {
    !(raw[7] % 128 == 127 && raw[6] / 16 == 15)
  }

  predicate FiniteFloat(raw: Bytes)
    requires |raw| == 4
  {
    !(raw[3] % 128 == 127 && raw[2] / 128 == 1)
  }

  /** `raw` is a length followed by exactly that many bytes. */
  ghost predicate Delimited(raw: Bytes) {
    exists n :: 0 <= n <= |raw| && IsVarint(raw[..n]) && VarintValue(raw[..n]) == |raw| - n
  }

  ghost predicate VarintUpTo(raw: Bytes, most: nat) {
    IsVarint(raw) && VarintValue(raw) <= most
  }

  /** `raw` is one well-formed value of this scalar type. */
  ghost predicate ScalarOk(k: FieldType, raw: Bytes) {
    match k
    case BoolType => VarintUpTo(raw, 1)
    case UInt32Type | SInt32Type => VarintUpTo(raw, 4_294_967_295)
    case EnumType(numbers) => VarintUpTo(raw, 2_147_483_647) && VarintValue(raw) != 0 && VarintValue(raw) in numbers
    case OtherVarint => IsVarint(raw)
    case DoubleType => |raw| == 8 && FiniteDouble(raw)
    case Fixed64Type => |raw| == 8
    case FloatType => |raw| == 4 && FiniteFloat(raw)
    case Fixed32Type => |raw| == 4
    case TextType | MessageType(_) => Delimited(raw)
    case GroupType => false
  }

  // --- records ---

  datatype Record = Record(key: Bytes, payload: Payload)

  datatype Payload =
    | Scalar(raw: Bytes)
    | Packed(length: Bytes, items: seq<Bytes>)
    | Message(length: Bytes, records: seq<Record>)

  function Encode(r: Record): Bytes
    decreases r, 0
  {
    r.key + match r.payload
            case Scalar(raw) => raw
            case Packed(length, items) => length + Flat(items)
            case Message(length, records) => length + EncodeAll(records)
  }

  function EncodeAll(rs: seq<Record>): Bytes
    decreases rs, 1
  {
    if rs == [] then [] else Encode(rs[0]) + EncodeAll(rs[1..])
  }

  /** Each record counts one, each packed value one more, nested records likewise. */
  function Cost(r: Record): nat
    decreases r, 0
  {
    1 + match r.payload
        case Scalar(_) => 0
        case Packed(_, items) => |items|
        case Message(_, records) => CostAll(records)
  }

  function CostAll(rs: seq<Record>): nat
    decreases rs, 1
  {
    if rs == [] then 0 else Cost(rs[0]) + CostAll(rs[1..])
  }

  function TagOf(r: Record): int {
    VarintValue(r.key) / 8
  }

  function WireOf(r: Record): int {
    VarintValue(r.key) % 8
  }

  // --- counting, for "at most once" ---

  function Sum(rs: seq<Record>, w: Record -> nat): nat {
    if rs == [] then 0 else w(rs[0]) + Sum(rs[1..], w)
  }

  predicate Singular(d: Descriptor, r: Record) {
    TagOf(r) in d.fields && !d.fields[TagOf(r)].repeated
  }

  function UsesTag(d: Descriptor, t: int): Record -> nat {
    (r: Record) => if Singular(d, r) && TagOf(r) == t then 1 else 0
  }

  predicate InGroup(d: Descriptor, r: Record, g: string) {
    TagOf(r) in d.fields && d.fields[TagOf(r)].oneof == Some(g)
  }

  function UsesGroup(d: Descriptor, g: string): Record -> nat {
    (r: Record) => if InGroup(d, r, g) then 1 else 0
  }

  /** Singular fields and oneofs at most once, none of those already used. */
  ghost predicate Compatible(d: Descriptor, rs: seq<Record>, seen: set<int>, groups: set<string>) {
    && (forall t: int :: Sum(rs, UsesTag(d, t)) + (if t in seen then 1 else 0) <= 1)
    && (forall g: string :: Sum(rs, UsesGroup(d, g)) + (if g in groups then 1 else 0) <= 1)
  }

  /** Every real oneof is there. */
  ghost predicate Satisfied(d: Descriptor, rs: seq<Record>, groups: set<string>) {
    forall g | g in d.required :: g in groups || Sum(rs, UsesGroup(d, g)) > 0
  }

  /** One record, valid in itself. */
  ghost predicate RecordOk(schema: Schema, d: Descriptor, r: Record, depth: nat)
    decreases r
  {
    && IsVarint(r.key)
    && 0 < TagOf(r) <= 2_147_483_647 && TagOf(r) in d.fields
    && var f := d.fields[TagOf(r)];
    && !f.isMap && !f.kind.GroupType?
    && match r.payload
       case Packed(length, items) =>
         && f.repeated && !Carried(f.kind, 2) && WireOf(r) == 2
         && IsVarint(length) && VarintValue(length) == |Flat(items)|
         && forall i | 0 <= i < |items| :: ScalarOk(f.kind, items[i])
       case Message(length, records) =>
         && f.kind.MessageType? && WireOf(r) == 2
         && IsVarint(length) && VarintValue(length) == |EncodeAll(records)|
         && f.kind.name in schema
         && depth + 1 < 64
         && (forall i | 0 <= i < |records| :: RecordOk(schema, schema[f.kind.name], records[i], depth + 1))
         && Compatible(schema[f.kind.name], records, {}, {})
         && Satisfied(schema[f.kind.name], records, {})
       case Scalar(raw) =>
         && !f.kind.MessageType? && Carried(f.kind, WireOf(r))
         && ScalarOk(f.kind, raw)
  }

  ghost predicate RecordsOk(schema: Schema, d: Descriptor, rs: seq<Record>, depth: nat) {
    forall i | 0 <= i < |rs| :: RecordOk(schema, d, rs[i], depth)
  }

  /** A message: valid records, in any order, obeying the field rules together. */
  ghost predicate MessageOk(schema: Schema, d: Descriptor, rs: seq<Record>, depth: nat) {
    depth < 64 && RecordsOk(schema, d, rs, depth) && Compatible(d, rs, {}, {}) && Satisfied(d, rs, {})
  }

  /** The byte strings the scanner is meant to accept. */
  ghost predicate IsMessage(schema: Schema, d: Descriptor, s: Bytes) {
    |s| <= 1_048_576 && exists rs :: EncodeAll(rs) == s && MessageOk(schema, d, rs, 0) && CostAll(rs) <= 65_536
  }

  // --- order does not matter ---

  lemma {:induction false} SumConcat(a: seq<Record>, b: seq<Record>, w: Record -> nat)
    ensures Sum(a + b, w) == Sum(a, w) + Sum(b, w)
    decreases |a|
  {
    if a == [] {
      assert a + b == b;
    } else {
      assert (a + b)[1..] == a[1..] + b;
      SumConcat(a[1..], b, w);
    }
  }

  lemma {:induction false} SumPermutes(a: seq<Record>, b: seq<Record>, w: Record -> nat)
    requires multiset(a) == multiset(b)
    ensures Sum(a, w) == Sum(b, w)
    decreases |a|
  {
    if a == [] {
      assert b == [] by { assert |multiset(b)| == 0; }
    } else {
      var x := a[0];
      assert x in multiset(b);
      var i :| 0 <= i < |b| && b[i] == x;
      HeadRemoved(a, b, i);
      SumPermutes(a[1..], b[..i] + b[i + 1..], w);
      SumWithout(b, i, w);
    }
  }

  lemma HeadRemoved<T>(a: seq<T>, b: seq<T>, i: nat)
    requires multiset(a) == multiset(b) && a != [] && i < |b| && b[i] == a[0]
    ensures multiset(a[1..]) == multiset(b[..i] + b[i + 1..])
  {
    var x := a[0];
    var before, after := multiset(b[..i]), multiset(b[i + 1..]);
    assert a == [x] + a[1..];
    assert multiset(a) == multiset(a[1..]) + multiset{x};
    assert b == b[..i] + [x] + b[i + 1..];
    assert multiset(b) == before + multiset{x} + after;
    assert multiset(b[..i] + b[i + 1..]) == before + after;
    assert multiset(b) == before + after + multiset{x};
    Cancel(multiset(a[1..]), before + after, x);
  }

  lemma Cancel<T>(a: multiset<T>, b: multiset<T>, x: T)
    requires a + multiset{x} == b + multiset{x}
    ensures a == b
  {
    forall y ensures a[y] == b[y] {
      assert (a + multiset{x})[y] == (b + multiset{x})[y];
    }
  }

  lemma SumWithout(b: seq<Record>, i: nat, w: Record -> nat)
    requires i < |b|
    ensures Sum(b, w) == w(b[i]) + Sum(b[..i] + b[i + 1..], w)
  {
    assert b == b[..i] + b[i..] && b[i..][1..] == b[i + 1..];
    SumConcat(b[..i], b[i..], w);
    SumConcat(b[..i], b[i + 1..], w);
  }

  function CostFn(): Record -> nat {
    (r: Record) => Cost(r)
  }

  function LengthFn(): Record -> nat {
    (r: Record) => |Encode(r)|
  }

  lemma {:induction false} CostIsSum(rs: seq<Record>)
    ensures CostAll(rs) == Sum(rs, CostFn()) && |EncodeAll(rs)| == Sum(rs, LengthFn())
    decreases |rs|
  {
    if rs != [] {
      CostIsSum(rs[1..]);
    }
  }

  lemma RulesPermute(d: Descriptor, a: seq<Record>, b: seq<Record>)
    requires multiset(a) == multiset(b)
    ensures Compatible(d, a, {}, {}) <==> Compatible(d, b, {}, {})
    ensures Satisfied(d, a, {}) <==> Satisfied(d, b, {})
  {
    forall t: int ensures Sum(a, UsesTag(d, t)) == Sum(b, UsesTag(d, t)) {
      SumPermutes(a, b, UsesTag(d, t));
    }
    forall g: string ensures Sum(a, UsesGroup(d, g)) == Sum(b, UsesGroup(d, g)) {
      SumPermutes(a, b, UsesGroup(d, g));
    }
  }

  lemma SameRecords(schema: Schema, d: Descriptor, a: seq<Record>, b: seq<Record>, depth: nat)
    requires multiset(a) == multiset(b) && RecordsOk(schema, d, a, depth)
    ensures RecordsOk(schema, d, b, depth)
  {
    forall i | 0 <= i < |b| ensures RecordOk(schema, d, b[i], depth) {
      assert b[i] in multiset(a);
      var j :| 0 <= j < |a| && a[j] == b[i];
    }
  }

  // --- nor does the order inside nested messages ---

  /** Equal but for the order of records, at every depth. */
  ghost predicate Alike(r: Record, s: Record)
    decreases r
  {
    r.key == s.key &&
    match r.payload
    case Message(length, records) =>
      && s.payload.Message? && s.payload.length == length
      && exists c: seq<Record> :: multiset(c) == multiset(s.payload.records) && |c| == |records| &&
           forall i | 0 <= i < |records| :: Alike(records[i], c[i])
    case _ => s.payload == r.payload
  }

  ghost predicate Pairwise(a: seq<Record>, b: seq<Record>) {
    |a| == |b| && forall i | 0 <= i < |a| :: Alike(a[i], b[i])
  }

  ghost predicate Shuffled(a: seq<Record>, b: seq<Record>) {
    exists c :: multiset(c) == multiset(b) && Pairwise(a, c)
  }

  lemma {:induction false} SumPairwise(a: seq<Record>, b: seq<Record>, w: Record -> nat)
    requires |a| == |b| && forall i | 0 <= i < |a| :: w(a[i]) == w(b[i])
    ensures Sum(a, w) == Sum(b, w)
    decreases |a|
  {
    if a != [] {
      SumPairwise(a[1..], b[1..], w);
    }
  }

  lemma RulesPairwise(d: Descriptor, a: seq<Record>, b: seq<Record>)
    requires Pairwise(a, b)
    ensures Compatible(d, a, {}, {}) <==> Compatible(d, b, {}, {})
    ensures Satisfied(d, a, {}) <==> Satisfied(d, b, {})
  {
    forall t: int ensures Sum(a, UsesTag(d, t)) == Sum(b, UsesTag(d, t)) {
      SumPairwise(a, b, UsesTag(d, t));
    }
    forall g: string ensures Sum(a, UsesGroup(d, g)) == Sum(b, UsesGroup(d, g)) {
      SumPairwise(a, b, UsesGroup(d, g));
    }
  }

  lemma PayloadsAlike(r: Record, s: Record)
    requires Alike(r, s) && r.payload.Message?
    ensures s.key == r.key && s.payload.Message? && s.payload.length == r.payload.length
    ensures Shuffled(r.payload.records, s.payload.records)
  {
    var c: seq<Record> :| multiset(c) == multiset(s.payload.records) && |c| == |r.payload.records| &&
      forall i | 0 <= i < |c| :: Alike(r.payload.records[i], c[i]);
    assert Pairwise(r.payload.records, c);
  }

  /** Records alike are valid together, cost the same and are as long. */
  lemma {:induction false} AlikeAgree(schema: Schema, d: Descriptor, r: Record, s: Record, depth: nat)
    requires Alike(r, s)
    ensures RecordOk(schema, d, r, depth) <==> RecordOk(schema, d, s, depth)
    ensures Cost(r) == Cost(s) && |Encode(r)| == |Encode(s)|
    decreases r, 0
  {
    hide Compatible, Satisfied, IsVarint, VarintValue, Flat;
    if r.payload.Message? {
      PayloadsAlike(r, s);
      var k := if TagOf(r) in d.fields then d.fields[TagOf(r)].kind else GroupType;
      var inner := if k.MessageType? && k.name in schema then schema[k.name] else d;
      ShuffledAgree(schema, inner, r.payload.records, s.payload.records, depth + 1);
      if RecordOk(schema, d, r, depth) {
        NestedOk(schema, d, r, s, inner, depth);
      }
      if RecordOk(schema, d, s, depth) {
        NestedOk(schema, d, s, r, inner, depth);
      }
    }
  }

  lemma NestedOk(schema: Schema, d: Descriptor, r: Record, s: Record, inner: Descriptor, depth: nat)
    requires r.key == s.key && r.payload.Message? && s.payload.Message? && s.payload.length == r.payload.length
    requires var a, b := r.payload.records, s.payload.records;
             && (RecordsOk(schema, inner, a, depth + 1) <==> RecordsOk(schema, inner, b, depth + 1))
             && (Compatible(inner, a, {}, {}) <==> Compatible(inner, b, {}, {}))
             && (Satisfied(inner, a, {}) <==> Satisfied(inner, b, {}))
             && |EncodeAll(a)| == |EncodeAll(b)|
    requires TagOf(r) in d.fields && d.fields[TagOf(r)].kind.MessageType? && d.fields[TagOf(r)].kind.name in schema ==>
               inner == schema[d.fields[TagOf(r)].kind.name]
    requires RecordOk(schema, d, r, depth)
    ensures RecordOk(schema, d, s, depth)
  {
    hide Compatible, Satisfied, IsVarint, VarintValue, EncodeAll;
    assert RecordsOk(schema, inner, r.payload.records, depth + 1);
    assert RecordsOk(schema, inner, s.payload.records, depth + 1);
  }

  /** Shuffled records are valid together and obey the same rules. */
  lemma {:induction false} ShuffledAgree(schema: Schema, d: Descriptor, a: seq<Record>, b: seq<Record>, depth: nat)
    requires Shuffled(a, b)
    ensures RecordsOk(schema, d, a, depth) <==> RecordsOk(schema, d, b, depth)
    ensures Compatible(d, a, {}, {}) <==> Compatible(d, b, {}, {})
    ensures Satisfied(d, a, {}) <==> Satisfied(d, b, {})
    ensures CostAll(a) == CostAll(b) && |EncodeAll(a)| == |EncodeAll(b)|
    decreases a, 1
  {
    hide Alike, RecordOk, Cost, Encode, Compatible, Satisfied, EncodeAll, CostAll;
    var c :| multiset(c) == multiset(b) && Pairwise(a, c);
    forall i | 0 <= i < |a|
      ensures RecordOk(schema, d, a[i], depth) <==> RecordOk(schema, d, c[i], depth)
      ensures CostFn()(a[i]) == CostFn()(c[i]) && LengthFn()(a[i]) == LengthFn()(c[i])
    {
      AlikeAgree(schema, d, a[i], c[i], depth);
    }
    RulesPairwise(d, a, c);
    RulesPermute(d, c, b);
    SumPairwise(a, c, CostFn());
    SumPairwise(a, c, LengthFn());
    SumPermutes(c, b, CostFn());
    SumPermutes(c, b, LengthFn());
    CostIsSum(a);
    CostIsSum(b);
    assert RecordsOk(schema, d, a, depth) <==> RecordsOk(schema, d, c, depth);
    RecordsPermute(schema, d, c, b, depth);
  }

  lemma RecordsPermute(schema: Schema, d: Descriptor, a: seq<Record>, b: seq<Record>, depth: nat)
    requires multiset(a) == multiset(b)
    ensures RecordsOk(schema, d, a, depth) <==> RecordsOk(schema, d, b, depth)
  {
    if RecordsOk(schema, d, a, depth) {
      SameRecords(schema, d, a, b, depth);
    }
    if RecordsOk(schema, d, b, depth) {
      SameRecords(schema, d, b, a, depth);
    }
  }

  lemma {:induction false} AlikeSelf(r: Record)
    ensures Alike(r, r)
  {
    if r.payload.Message? {
      forall i | 0 <= i < |r.payload.records| ensures Alike(r.payload.records[i], r.payload.records[i]) {
        AlikeSelf(r.payload.records[i]);
      }
    }
  }

  /** Permuting the outermost records is one way to shuffle. */
  lemma PermutedIsShuffled(a: seq<Record>, b: seq<Record>)
    requires multiset(a) == multiset(b)
    ensures Shuffled(a, b)
  {
    forall r { AlikeSelf(r); }
    assert Pairwise(a, a);
  }

  /** Reordering the fields of a message, at any depth, changes neither its validity, its cost nor its length. */
  lemma ReorderedMessage(schema: Schema, d: Descriptor, a: seq<Record>, b: seq<Record>, depth: nat)
    requires Shuffled(a, b)
    ensures MessageOk(schema, d, a, depth) <==> MessageOk(schema, d, b, depth)
    ensures CostAll(a) == CostAll(b) && |EncodeAll(a)| == |EncodeAll(b)|
  {
    ShuffledAgree(schema, d, a, b, depth);
  }
}
