/** What the scanner computes, as functions of the bytes left to read, and the proof that
    it accepts exactly the grammar. */
module WireScan {
  import opened Options
  import opened ByteStrings
  import opened WireGrammar

  const MAX_BYTES := 0x10_0000
  const MAX_FIELDS := 0x1_0000
  const INT32_MAX := 0x7FFF_FFFF
  const UINT32_MAX := 0xFFFF_FFFF

  // --- the tests of the scanner ---

  /** `wire_type`; None for groups. */
  function WireType(k: FieldType): Option<nat> {
    match k
    case DoubleType | Fixed64Type => Some(1)
    case TextType | MessageType(_) => Some(2)
    case FloatType | Fixed32Type => Some(5)
    case GroupType => None
    case _ => Some(0)
  }

  predicate VarintRefused(k: FieldType, v: nat) {
    || (k.BoolType? && v > 1)
    || ((k.UInt32Type? || k.SInt32Type?) && v > UINT32_MAX)
    || (k.EnumType? && (v == 0 || v > INT32_MAX || v !in k.numbers))
  }

  /** The bytes as one integer, lowest byte first. */
  function Bits(raw: Bytes): nat {
    if raw == [] then 0 else
      var low: int := raw[0];
      low + 256 * Bits(raw[1..])
  }

  const TWO_52 := 0x10_0000_0000_0000
  const TWO_23 := 0x80_0000

  /** `isfinite`: the eleven exponent bits, or eight, are not all ones. */
  predicate IsFinite64(bits: nat) {
    bits / TWO_52 % 2048 != 2047
  }

  predicate IsFinite32(bits: nat) {
    bits / TWO_23 % 256 != 255
  }

  lemma WireTypesAgree(k: FieldType, wire: int)
    ensures Carried(k, wire) <==> wire >= 0 && WireType(k) == Some(wire)
  {}

  lemma BitsOf(raw: Bytes, n: nat)
    requires n < |raw|
    ensures Bits(raw[n..]) == raw[n] + 256 * Bits(raw[n + 1..])
  {
    assert raw[n..][1..] == raw[n + 1..];
  }

  lemma FiniteFloatAgrees(raw: Bytes)
    requires |raw| == 4
    ensures FiniteFloat(raw) <==> IsFinite32(Bits(raw))
  {
    assert raw[0..] == raw && raw[4..] == [];
    BitsOf(raw, 0);
    BitsOf(raw, 1);
    BitsOf(raw, 2);
    BitsOf(raw, 3);
    var b0: int, b1: int, b2: int, b3: int := raw[0], raw[1], raw[2], raw[3];
    assert Bits(raw) == b0 + 256 * b1 + 65536 * b2 + 16777216 * b3;
    FloatExponent(b0 + 256 * b1, b2, b3);
  }

  lemma FloatExponent(low: int, b2: int, b3: int)
    requires 0 <= low < 65536 && 0 <= b2 < 256 && 0 <= b3 < 256
    ensures (low + 65536 * b2 + 16777216 * b3) / TWO_23 == b2 / 128 + 2 * b3
    ensures (b2 / 128 + 2 * b3) % 256 == 255 <==> b3 % 128 == 127 && b2 / 128 == 1
  {}

  /** The first three bytes, and the rest. */
  lemma ThreeBytes(raw: Bytes) returns (low: int)
    requires |raw| >= 3
    ensures 0 <= low < 0x100_0000 && Bits(raw) == low + 0x100_0000 * Bits(raw[3..])
  {
    assert raw[0..] == raw;
    BitsOf(raw, 0);
    BitsOf(raw, 1);
    BitsOf(raw, 2);
    var b0: int, b1: int, b2: int := raw[0], raw[1], raw[2];
    low := b0 + 256 * b1 + 65536 * b2;
  }

  lemma FiniteDoubleAgrees(raw: Bytes)
    requires |raw| == 8
    ensures FiniteDouble(raw) <==> IsFinite64(Bits(raw))
  {
    hide Bits;
    var a := ThreeBytes(raw);
    var b := ThreeBytes(raw[3..]);
    assert raw[3..][3..] == raw[6..];
    var b6: int, b7: int := raw[6], raw[7];
    LastTwo(raw);
    assert Bits(raw) == a + 0x100_0000 * b + 0x1_0000_0000_0000 * (b6 + 256 * b7);
    DoubleExponent(a + 0x100_0000 * b, b6, b7);
  }

  lemma LastTwo(raw: Bytes)
    requires |raw| == 8
    ensures Bits(raw[6..]) == raw[6] as int + 256 * raw[7] as int
  {
    assert raw[8..] == [];
    BitsOf(raw, 6);
    BitsOf(raw, 7);
  }

  lemma DoubleExponent(low: int, b6: int, b7: int)
    requires 0 <= low < 0x1_0000_0000_0000 && 0 <= b6 < 256 && 0 <= b7 < 256
    ensures (low + 0x1_0000_0000_0000 * (b6 + 256 * b7)) / TWO_52 == b6 / 16 + 16 * b7
    ensures (b6 / 16 + 16 * b7) % 2048 == 2047 <==> b7 % 128 == 127 && b6 / 16 == 15
  {}

  // --- reading ---

  /** Value and length of the varint at the front, from its k-th byte on. */
  function ReadVarint(s: Bytes, k: nat): (r: Option<(nat, nat)>)
    requires k <= 9
    ensures r.Some? ==> 0 < r.value.1 <= |s|
    decreases 9 - k
  {
    if s == [] || (k == 9 && s[0] > 1) then None
    else if s[0] < 128 then Some((s[0], 1))
    else match ReadVarint(s[1..], k + 1)
      case None => None
      case Some((v, n)) => Some((s[0] % 128 + 128 * v, n + 1))
  }

  /** Where the length-delimited field at the front has its content. */
  function ReadDelimited(s: Bytes): (r: Option<(nat, nat)>)
    ensures r.Some? ==> 0 < r.value.0 <= r.value.1 <= |s|
  {
    match ReadVarint(s, 0)
    case None => None
    case Some((v, n)) => if v > |s| - n then None else Some((n, n + v))
  }

  /** How many bytes the scalar at the front takes. */
  function ReadScalar(k: FieldType, s: Bytes): (r: Option<nat>)
    ensures r.Some? ==> 0 < r.value <= |s|
  {
    match WireType(k)
    case Some(0) =>
      (match ReadVarint(s, 0)
       case Some((v, n)) => if VarintRefused(k, v) then None else Some(n)
       case None => None)
    case Some(1) => if |s| < 8 || (k.DoubleType? && !IsFinite64(Bits(s[..8]))) then None else Some(8)
    case Some(5) => if |s| < 4 || (k.FloatType? && !IsFinite32(Bits(s[..4]))) then None else Some(4)
    case Some(2) =>
      (match ReadDelimited(s)
       case Some((_, end)) => Some(end)
       case None => None)
    case _ => None
  }

  /** Packed values to the end of `s`; the budget left. */
  function ReadPacked(k: FieldType, s: Bytes, budget: nat): (r: Option<nat>)
    decreases |s|
  {
    if s == [] then Some(budget)
    else if budget == 0 then None
    else match ReadScalar(k, s)
      case None => None
      case Some(n) => ReadPacked(k, s[n..], budget - 1)
  }

  /** A packed run of scalars: bytes taken and budget left. */
  function ReadPackedBody(k: FieldType, s: Bytes, budget: nat): (r: Option<(nat, nat)>)
    ensures r.Some? ==> r.value.0 <= |s|
  {
    match ReadDelimited(s)
    case None => None
    case Some((from, end)) =>
      (match ReadPacked(k, s[from..end], budget)
       case None => None
       case Some(left) => Some((end, left)))
  }

  function ReadMessageBody(schema: Schema, name: string, s: Bytes, depth: nat, budget: nat): (r: Option<(nat, nat)>)
    ensures r.Some? ==> r.value.0 <= |s|
    decreases |s|, 0
  {
    match ReadDelimited(s)
    case None => None
    case Some((from, end)) =>
      if name !in schema then None
      else (match Scan(schema, schema[name], s[from..end], depth + 1, budget)
            case None => None
            case Some(left) => Some((end, left)))
  }

  function ReadScalarBody(k: FieldType, s: Bytes, budget: nat): (r: Option<(nat, nat)>)
    ensures r.Some? ==> r.value.0 <= |s|
  {
    match ReadScalar(k, s)
    case None => None
    case Some(n) => Some((n, budget))
  }

  predicate IsPacked(f: Field, wire: int) {
    f.repeated && WireType(f.kind) != Some(2) && wire == 2
  }

  /** The value of a field after its key: bytes taken and budget left. */
  function ReadBody(schema: Schema, f: Field, wire: int, s: Bytes, depth: nat, budget: nat): (r: Option<(nat, nat)>)
    ensures r.Some? ==> r.value.0 <= |s|
    decreases |s|, 1
  {
    if WireType(f.kind).None? then None
    else if IsPacked(f, wire) then ReadPackedBody(f.kind, s, budget)
    else if WireType(f.kind) != Some(wire) then None
    else if f.kind.MessageType? then ReadMessageBody(schema, f.kind.name, s, depth, budget)
    else ReadScalarBody(f.kind, s, budget)
  }

  /** The tags and oneofs used once `r`'s tag has been met. */
  function SeenAfter(d: Descriptor, tag: int, seen: set<int>): set<int> {
    if tag in d.fields && !d.fields[tag].repeated then seen + {tag} else seen
  }

  function GroupsAfter(d: Descriptor, tag: int, groups: set<string>): set<string> {
    if tag in d.fields && d.fields[tag].oneof.Some? then groups + {d.fields[tag].oneof.value} else groups
  }

  predicate TagAllowed(d: Descriptor, tag: int, seen: set<int>, groups: set<string>) {
    && 0 < tag <= INT32_MAX && tag in d.fields
    && !d.fields[tag].isMap
    && (!d.fields[tag].repeated ==> tag !in seen)
    && (d.fields[tag].oneof.Some? ==> d.fields[tag].oneof.value !in groups)
  }

  /** One turn of the field loop. */
  datatype Progress =
    | Stopped
    | Finished(left: nat)
    | Onward(rest: Bytes, budget: nat, seen: set<int>, groups: set<string>)

  function Turn(schema: Schema, d: Descriptor, s: Bytes, depth: nat, budget: nat,
                seen: set<int>, groups: set<string>): (p: Progress)
    ensures p.Onward? ==> |p.rest| < |s|
    decreases |s|, 2
  {
    if s == [] then (if d.required <= groups then Finished(budget) else Stopped)
    else if budget == 0 then Stopped
    else match ReadVarint(s, 0)
      case None => Stopped
      case Some((key, n)) =>
        var tag := key / 8;
        if !TagAllowed(d, tag, seen, groups) then Stopped
        else match ReadBody(schema, d.fields[tag], key % 8, s[n..], depth, budget - 1)
          case None => Stopped
          case Some((m, left)) => Onward(s[n + m..], left, SeenAfter(d, tag, seen), GroupsAfter(d, tag, groups))
  }

  function ScanFields(schema: Schema, d: Descriptor, s: Bytes, depth: nat, budget: nat,
                      seen: set<int>, groups: set<string>): Option<nat>
    decreases |s|, 3
  {
    match Turn(schema, d, s, depth, budget, seen, groups)
    case Stopped => None
    case Finished(left) => Some(left)
    case Onward(rest, b, sn, gr) => ScanFields(schema, d, rest, depth, b, sn, gr)
  }

  /** The budget left after a message, or None where the scanner throws. */
  function Scan(schema: Schema, d: Descriptor, s: Bytes, depth: nat, budget: nat): Option<nat>
    decreases |s|, 4
  {
    if depth >= 64 then None else ScanFields(schema, d, s, depth, budget, {}, {})
  }

  predicate Accepts(schema: Schema, d: Descriptor, s: Bytes) {
    |s| <= MAX_BYTES && Scan(schema, d, s, 0, MAX_FIELDS).Some?
  }

  // --- varints ---

  lemma {:induction false} VarintReads(e: Bytes, rest: Bytes, k: nat)
    requires k <= 9 && VarintFrom(e, k)
    ensures ReadVarint(e + rest, k) == Some((VarintValue(e), |e|))
    decreases |e|
  {
    var s := e + rest;
    assert s[0] == e[0];
    if e[0] >= 128 {
      assert s[1..] == e[1..] + rest;
      VarintReads(e[1..], rest, k + 1);
    } else {
      assert e[1..] == [];
    }
  }

  lemma {:induction false} VarintFound(s: Bytes, k: nat)
    requires k <= 9 && ReadVarint(s, k).Some?
    ensures var (v, n) := ReadVarint(s, k).value; VarintFrom(s[..n], k) && VarintValue(s[..n]) == v
    decreases 9 - k
  {
    var n := ReadVarint(s, k).value.1;
    if s[0] >= 128 {
      VarintFound(s[1..], k + 1);
      assert s[..n][1..] == s[1..][..n - 1];
    } else {
      assert s[..1] == [s[0]] && s[..1][1..] == [];
    }
  }

  // --- scalars ---

  lemma VarintReadsFirst(e: Bytes, rest: Bytes)
    requires IsVarint(e)
    ensures ReadVarint(e + rest, 0) == Some((VarintValue(e), |e|))
  {
    VarintReads(e, rest, 0);
  }

  lemma DelimitedReads(e: Bytes, content: Bytes, rest: Bytes)
    requires IsVarint(e) && VarintValue(e) == |content|
    ensures ReadDelimited(e + content + rest) == Some((|e|, |e| + |content|))
  {
    hide IsVarint, VarintValue, ReadVarint, ReadDelimited;
    var s := e + (content + rest);
    VarintReadsFirst(e, content + rest);
    Delimits(s, |e|, |content|);
    assert s == e + content + rest;
  }

  lemma Delimits(s: Bytes, n: nat, v: nat)
    requires ReadVarint(s, 0) == Some((v, n)) && n + v <= |s|
    ensures ReadDelimited(s) == Some((n, n + v))
  {
    hide ReadVarint;
  }

  lemma Inside(e: Bytes, content: Bytes, rest: Bytes)
    ensures (e + content + rest)[|e|..|e| + |content|] == content
    ensures (e + content + rest)[|e| + |content|..] == rest
  {}

  lemma DelimitedFound(s: Bytes)
    requires ReadDelimited(s).Some?
    ensures var (from, end) := ReadDelimited(s).value;
            IsVarint(s[..from]) && VarintValue(s[..from]) == end - from
  {
    VarintFound(s, 0);
  }

  lemma ScalarReads(k: FieldType, raw: Bytes, rest: Bytes)
    requires ScalarOk(k, raw)
    ensures ReadScalar(k, raw + rest) == Some(|raw|)
  {
    hide Bits, IsFinite64, IsFinite32, FiniteDouble, FiniteFloat;
    var s := raw + rest;
    match WireType(k) {
      case Some(w) =>
        if w == 0 {
          VarintReads(raw, rest, 0);
        } else if w == 2 {
          var n :| 0 <= n <= |raw| && IsVarint(raw[..n]) && VarintValue(raw[..n]) == |raw| - n;
          assert s == raw[..n] + raw[n..] + rest;
          DelimitedReads(raw[..n], raw[n..], rest);
        } else {
          assert s[..|raw|] == raw;
          FiniteAgrees(raw);
        }
    }
  }

  lemma FiniteAgrees(raw: Bytes)
    ensures |raw| == 8 ==> (FiniteDouble(raw) <==> IsFinite64(Bits(raw)))
    ensures |raw| == 4 ==> (FiniteFloat(raw) <==> IsFinite32(Bits(raw)))
  {
    if |raw| == 8 { FiniteDoubleAgrees(raw); }
    if |raw| == 4 { FiniteFloatAgrees(raw); }
  }

  lemma ScalarFound(k: FieldType, s: Bytes)
    requires ReadScalar(k, s).Some?
    ensures ScalarOk(k, s[..ReadScalar(k, s).value])
  {
    hide Bits, IsFinite64, IsFinite32, FiniteDouble, FiniteFloat;
    var n := ReadScalar(k, s).value;
    FiniteAgrees(s[..n]);
    match WireType(k) {
      case Some(w) =>
        if w == 0 {
          VarintFound(s, 0);
        } else if w == 2 {
          DelimitedFound(s);
          var from := ReadDelimited(s).value.0;
          assert s[..n][..from] == s[..from];
        }
    }
  }

  // --- packed fields ---

  lemma {:induction false} PackedReads(k: FieldType, items: seq<Bytes>, budget: nat)
    requires forall i | 0 <= i < |items| :: ScalarOk(k, items[i])
    ensures Leaves(ReadPacked(k, Flat(items), budget), true, |items|, budget)
    decreases |items|
  {
    if items != [] {
      ScalarReads(k, items[0], Flat(items[1..]));
      assert Flat(items)[|items[0]|..] == Flat(items[1..]);
      if budget > 0 {
        PackedReads(k, items[1..], budget - 1);
      }
    }
  }

  lemma {:induction false} PackedFound(k: FieldType, s: Bytes, budget: nat) returns (items: seq<Bytes>)
    requires ReadPacked(k, s, budget).Some?
    ensures Flat(items) == s && |items| == budget - ReadPacked(k, s, budget).value
    ensures forall i | 0 <= i < |items| :: ScalarOk(k, items[i])
    decreases |s|
  {
    hide ScalarOk, ReadScalar;
    if s == [] {
      items := [];
    } else {
      var n := ReadScalar(k, s).value;
      ScalarFound(k, s);
      var rest := PackedFound(k, s[n..], budget - 1);
      items := [s[..n]] + rest;
      assert items[1..] == rest && s == s[..n] + s[n..];
    }
  }

  // --- the rules that span records ---

  lemma RulesStep(d: Descriptor, r: Record, rest: seq<Record>, seen: set<int>, groups: set<string>)
    requires TagOf(r) in d.fields
    ensures var f := d.fields[TagOf(r)];
            Compatible(d, [r] + rest, seen, groups) <==>
            && (!f.repeated ==> TagOf(r) !in seen) && (f.oneof.Some? ==> f.oneof.value !in groups)
            && Compatible(d, rest, SeenAfter(d, TagOf(r), seen), GroupsAfter(d, TagOf(r), groups))
    ensures Satisfied(d, [r] + rest, groups) <==> Satisfied(d, rest, GroupsAfter(d, TagOf(r), groups))
  {
    var rs := [r] + rest;
    assert rs[0] == r && rs[1..] == rest;
    forall t: int ensures Sum(rs, UsesTag(d, t)) == UsesTag(d, t)(r) + Sum(rest, UsesTag(d, t)) {}
    forall g: string ensures Sum(rs, UsesGroup(d, g)) == UsesGroup(d, g)(r) + Sum(rest, UsesGroup(d, g)) {}
    TagStep(d, r, rest, seen);
    GroupStep(d, r, rest, groups);
  }

  /** All the rules hold exactly when the first record is allowed and they hold behind it. */
  lemma RulesSplit(d: Descriptor, r: Record, rest: seq<Record>, seen: set<int>, groups: set<string>)
    requires 0 < TagOf(r) <= INT32_MAX && TagOf(r) in d.fields && !d.fields[TagOf(r)].isMap
    ensures Compatible(d, [r] + rest, seen, groups) && Satisfied(d, [r] + rest, groups) <==>
            && TagAllowed(d, TagOf(r), seen, groups)
            && Compatible(d, rest, SeenAfter(d, TagOf(r), seen), GroupsAfter(d, TagOf(r), groups))
            && Satisfied(d, rest, GroupsAfter(d, TagOf(r), groups))
  {
    RulesStep(d, r, rest, seen, groups);
  }

  ghost predicate TagsFit(d: Descriptor, rs: seq<Record>, seen: set<int>) {
    forall t: int :: Sum(rs, UsesTag(d, t)) + (if t in seen then 1 else 0) <= 1
  }

  ghost predicate GroupsFit(d: Descriptor, rs: seq<Record>, groups: set<string>) {
    forall g: string :: Sum(rs, UsesGroup(d, g)) + (if g in groups then 1 else 0) <= 1
  }

  lemma TagStep(d: Descriptor, r: Record, rest: seq<Record>, seen: set<int>)
    requires TagOf(r) in d.fields
    ensures TagsFit(d, [r] + rest, seen) <==>
            (!d.fields[TagOf(r)].repeated ==> TagOf(r) !in seen) && TagsFit(d, rest, SeenAfter(d, TagOf(r), seen))
  {
    var rs := [r] + rest;
    assert rs[1..] == rest;
    assert forall t: int :: Sum(rs, UsesTag(d, t)) == UsesTag(d, t)(r) + Sum(rest, UsesTag(d, t));
    if TagsFit(d, rs, seen) {
      assert Sum(rs, UsesTag(d, TagOf(r))) + (if TagOf(r) in seen then 1 else 0) <= 1;
    }
    if !d.fields[TagOf(r)].repeated && TagsFit(d, rest, SeenAfter(d, TagOf(r), seen)) {
      assert Sum(rest, UsesTag(d, TagOf(r))) + 1 <= 1;
    }
  }

  lemma GroupStep(d: Descriptor, r: Record, rest: seq<Record>, groups: set<string>)
    requires TagOf(r) in d.fields
    ensures GroupsFit(d, [r] + rest, groups) <==>
            && (d.fields[TagOf(r)].oneof.Some? ==> d.fields[TagOf(r)].oneof.value !in groups)
            && GroupsFit(d, rest, GroupsAfter(d, TagOf(r), groups))
  {
    var rs := [r] + rest;
    assert rs[1..] == rest;
    assert forall g: string :: Sum(rs, UsesGroup(d, g)) == UsesGroup(d, g)(r) + Sum(rest, UsesGroup(d, g));
    if d.fields[TagOf(r)].oneof.Some? {
      var g := d.fields[TagOf(r)].oneof.value;
      if GroupsFit(d, rs, groups) {
        assert Sum(rs, UsesGroup(d, g)) + (if g in groups then 1 else 0) <= 1;
      }
      if GroupsFit(d, rest, GroupsAfter(d, TagOf(r), groups)) {
        assert Sum(rest, UsesGroup(d, g)) + 1 <= 1;
      }
    }
  }

  // --- completeness ---

  /** A value of this length and cost was read within the budget. */
  ghost predicate Takes(body: Option<(nat, nat)>, length: nat, cost: nat, budget: nat) {
    && (body.Some? <==> cost <= budget)
    && (body.Some? ==> body.value.0 == length && body.value.1 == budget - cost)
  }

  /** A run of records of this cost was scanned within the budget, if the rules hold. */
  ghost predicate Leaves(left: Option<nat>, rules: bool, cost: nat, budget: nat) {
    && (left.Some? <==> rules && cost <= budget)
    && (left.Some? ==> left.value == budget - cost)
  }

  function PayloadBytes(p: Payload): Bytes {
    match p
    case Scalar(raw) => raw
    case Packed(length, items) => length + Flat(items)
    case Message(length, records) => length + EncodeAll(records)
  }

  lemma PackedBodyReads(k: FieldType, length: Bytes, items: seq<Bytes>, rest: Bytes, budget: nat)
    requires IsVarint(length) && VarintValue(length) == |Flat(items)|
    requires forall i | 0 <= i < |items| :: ScalarOk(k, items[i])
    ensures Takes(ReadPackedBody(k, length + Flat(items) + rest, budget), |length| + |Flat(items)|, |items|, budget)
  {
    DelimitedReads(length, Flat(items), rest);
    Inside(length, Flat(items), rest);
    PackedReads(k, items, budget);
  }

  lemma {:induction false} MessageBodyReads(schema: Schema, name: string, length: Bytes, records: seq<Record>,
                                            rest: Bytes, depth: nat, budget: nat)
    requires IsVarint(length) && VarintValue(length) == |EncodeAll(records)|
    requires name in schema && MessageOk(schema, schema[name], records, depth + 1)
    ensures Takes(ReadMessageBody(schema, name, length + EncodeAll(records) + rest, depth, budget),
                  |length| + |EncodeAll(records)|, CostAll(records), budget)
    decreases records, 3
  {
    DelimitedReads(length, EncodeAll(records), rest);
    Inside(length, EncodeAll(records), rest);
    FieldsRead(schema, schema[name], records, depth + 1, budget, {}, {});
  }

  /** Reading the value of a valid record takes exactly its bytes and its cost. */
  lemma {:induction false} BodyReads(schema: Schema, d: Descriptor, r: Record, rest: Bytes, depth: nat, budget: nat)
    requires RecordOk(schema, d, r, depth)
    ensures Takes(ReadBody(schema, d.fields[TagOf(r)], WireOf(r), PayloadBytes(r.payload) + rest, depth, budget),
                  |PayloadBytes(r.payload)|, Cost(r) - 1, budget)
    decreases r, 4
  {
    hide IsVarint, VarintValue, ReadPackedBody, ReadMessageBody, Compatible, Satisfied, ScalarOk;
    hide EncodeAll, CostAll, Flat;
    var f := d.fields[TagOf(r)];
    match r.payload {
      case Scalar(raw) => ScalarReads(f.kind, raw, rest);
      case Packed(length, items) => PackedBodyReads(f.kind, length, items, rest, budget);
      case Message(length, records) =>
        assert MessageOk(schema, schema[f.kind.name], records, depth + 1);
        MessageBodyReads(schema, f.kind.name, length, records, rest, depth, budget);
    }
  }

  lemma Front(r: Record, tail: Bytes)
    requires IsVarint(r.key)
    ensures var s := Encode(r) + tail;
            && s != [] && ReadVarint(s, 0) == Some((VarintValue(r.key), |r.key|))
            && |s| >= |r.key| + |PayloadBytes(r.payload)|
            && s[|r.key|..] == PayloadBytes(r.payload) + tail && s[|r.key| + |PayloadBytes(r.payload)|..] == tail
  {
    KeyThenBody(r, tail);
    VarintReads(r.key, PayloadBytes(r.payload) + tail, 0);
  }

  /** One readable record at the front: the loop goes on behind it, or stops there. */
  lemma OneField(schema: Schema, d: Descriptor, r: Record, tail: Bytes, depth: nat, budget: nat,
                 seen: set<int>, groups: set<string>)
    requires IsVarint(r.key) && TagOf(r) in d.fields
    requires budget > 0 ==>
               Takes(ReadBody(schema, d.fields[TagOf(r)], WireOf(r), PayloadBytes(r.payload) + tail, depth, budget - 1),
                     |PayloadBytes(r.payload)|, Cost(r) - 1, budget - 1)
    ensures Turn(schema, d, Encode(r) + tail, depth, budget, seen, groups) ==
            if Cost(r) <= budget && TagAllowed(d, TagOf(r), seen, groups)
            then Onward(tail, budget - Cost(r), SeenAfter(d, TagOf(r), seen), GroupsAfter(d, TagOf(r), groups))
            else Stopped
  {
    Front(r, tail);
  }

  lemma {:induction false} OneRecord(schema: Schema, d: Descriptor, r: Record, tail: Bytes, depth: nat, budget: nat,
                                     seen: set<int>, groups: set<string>)
    requires RecordOk(schema, d, r, depth)
    ensures Turn(schema, d, Encode(r) + tail, depth, budget, seen, groups) ==
            if Cost(r) <= budget && TagAllowed(d, TagOf(r), seen, groups)
            then Onward(tail, budget - Cost(r), SeenAfter(d, TagOf(r), seen), GroupsAfter(d, TagOf(r), groups))
            else Stopped
    ensures 0 < TagOf(r) <= INT32_MAX && TagOf(r) in d.fields && !d.fields[TagOf(r)].isMap
    decreases r, 5
  {
    if budget > 0 {
      BodyReads(schema, d, r, tail, depth, budget - 1);
    }
    OneField(schema, d, r, tail, depth, budget, seen, groups);
  }

  /** On valid records the scanner decides by the rules that span them and by the budget. */
  lemma {:induction false} FieldsRead(schema: Schema, d: Descriptor, rs: seq<Record>, depth: nat, budget: nat,
                                      seen: set<int>, groups: set<string>)
    requires RecordsOk(schema, d, rs, depth)
    ensures Leaves(ScanFields(schema, d, EncodeAll(rs), depth, budget, seen, groups),
                   Compatible(d, rs, seen, groups) && Satisfied(d, rs, groups), CostAll(rs), budget)
    decreases rs, 2
  {
    hide RecordOk, Compatible, Satisfied, ScanFields, Encode, Cost;
    if rs == [] {
      NothingRead(schema, d, depth, budget, seen, groups);
    } else {
      var r, rest := rs[0], rs[1..];
      assert rs == [r] + rest;
      assert RecordOk(schema, d, r, depth) && RecordsOk(schema, d, rest, depth);
      FirstAndRestRead(schema, d, r, rest, depth, budget, seen, groups);
    }
  }

  lemma NothingRead(schema: Schema, d: Descriptor, depth: nat, budget: nat, seen: set<int>, groups: set<string>)
    ensures Leaves(ScanFields(schema, d, EncodeAll([]), depth, budget, seen, groups),
                   Compatible(d, [], seen, groups) && Satisfied(d, [], groups), CostAll([]), budget)
  {
    NoRecords(d, seen, groups);
  }

  lemma {:induction false} FirstAndRestRead(schema: Schema, d: Descriptor, r: Record, rest: seq<Record>,
                                            depth: nat, budget: nat, seen: set<int>, groups: set<string>)
    requires RecordOk(schema, d, r, depth) && RecordsOk(schema, d, rest, depth)
    ensures Leaves(ScanFields(schema, d, Encode(r) + EncodeAll(rest), depth, budget, seen, groups),
                   Compatible(d, [r] + rest, seen, groups) && Satisfied(d, [r] + rest, groups),
                   Cost(r) + CostAll(rest), budget)
    decreases [r] + rest, 1
  {
    hide RecordOk, RecordsOk, Compatible, Satisfied, Turn, ScanFields, Encode, EncodeAll, Cost, CostAll, TagAllowed;
    var rs := [r] + rest;
    assert rs[0] == r && rs[1..] == rest;
    var sn, gr := SeenAfter(d, TagOf(r), seen), GroupsAfter(d, TagOf(r), groups);
    OneRecord(schema, d, r, EncodeAll(rest), depth, budget, seen, groups);
    if Cost(r) <= budget {
      FieldsRead(schema, d, rest, depth, budget - Cost(r), sn, gr);
    }
    AfterOne(schema, d, Encode(r) + EncodeAll(rest), EncodeAll(rest), depth, budget, seen, groups, sn, gr,
             TagAllowed(d, TagOf(r), seen, groups), Compatible(d, rest, sn, gr) && Satisfied(d, rest, gr),
             Cost(r), CostAll(rest));
    RulesSplit(d, r, rest, seen, groups);
  }

  lemma AfterOne(schema: Schema, d: Descriptor, s: Bytes, tail: Bytes, depth: nat, budget: nat,
                 seen: set<int>, groups: set<string>, sn: set<int>, gr: set<string>,
                 allowed: bool, rules: bool, cost: nat, more: nat)
    requires Turn(schema, d, s, depth, budget, seen, groups) ==
             if cost <= budget && allowed then Onward(tail, budget - cost, sn, gr) else Stopped
    requires cost <= budget ==>
               Leaves(ScanFields(schema, d, tail, depth, budget - cost, sn, gr), rules, more, budget - cost)
    ensures Leaves(ScanFields(schema, d, s, depth, budget, seen, groups), allowed && rules, cost + more, budget)
  {
    hide Turn;
  }

  lemma NoRecords(d: Descriptor, seen: set<int>, groups: set<string>)
    ensures CostAll([]) == 0 && EncodeAll([]) == [] && forall schema, depth :: RecordsOk(schema, d, [], depth)
    ensures Compatible(d, [], seen, groups)
    ensures Satisfied(d, [], groups) <==> d.required <= groups
  {}

  lemma KeyThenBody(r: Record, tail: Bytes)
    ensures Encode(r) == r.key + PayloadBytes(r.payload)
    ensures Encode(r) + tail == r.key + (PayloadBytes(r.payload) + tail)
    ensures (Encode(r) + tail)[|r.key|..] == PayloadBytes(r.payload) + tail
    ensures (Encode(r) + tail)[|r.key| + |PayloadBytes(r.payload)|..] == tail
  {}

  // --- soundness ---

  lemma {:induction false} BodyFound(schema: Schema, d: Descriptor, key: Bytes, s: Bytes, depth: nat, budget: nat)
    returns (r: Record)
    requires IsVarint(key)
    requires var t := VarintValue(key) / 8; 0 < t <= INT32_MAX && t in d.fields && !d.fields[t].isMap
    requires ReadBody(schema, d.fields[VarintValue(key) / 8], VarintValue(key) % 8, s, depth, budget).Some?
    ensures var v := VarintValue(key);
            var (m, left) := ReadBody(schema, d.fields[v / 8], v % 8, s, depth, budget).value;
            && r.key == key && PayloadBytes(r.payload) == s[..m] && Cost(r) - 1 == budget - left
    ensures RecordOk(schema, d, r, depth)
    decreases |s|, 1
  {
    var f, wire := d.fields[VarintValue(key) / 8], VarintValue(key) % 8;
    if IsPacked(f, wire) {
      var length, items := PackedBodyFound(f.kind, s, budget);
      r := Record(key, Packed(length, items));
    } else if f.kind.MessageType? {
      var length, rs := MessageBodyFound(schema, f.kind.name, s, depth, budget);
      r := Record(key, Message(length, rs));
    } else {
      ScalarFound(f.kind, s);
      r := Record(key, Scalar(s[..ReadScalar(f.kind, s).value]));
    }
  }

  lemma PackedBodyFound(k: FieldType, s: Bytes, budget: nat) returns (length: Bytes, items: seq<Bytes>)
    requires ReadPackedBody(k, s, budget).Some?
    ensures IsVarint(length) && VarintValue(length) == |Flat(items)|
    ensures forall i | 0 <= i < |items| :: ScalarOk(k, items[i])
    ensures var (m, left) := ReadPackedBody(k, s, budget).value;
            length + Flat(items) == s[..m] && |items| == budget - left
  {
    hide ReadPacked, IsVarint, VarintValue, ScalarOk;
    DelimitedFound(s);
    var (from, end) := ReadDelimited(s).value;
    length := s[..from];
    items := PackedFound(k, s[from..end], budget);
    assert s[..end] == s[..from] + s[from..end];
  }

  lemma {:induction false} MessageBodyFound(schema: Schema, name: string, s: Bytes, depth: nat, budget: nat)
    returns (length: Bytes, rs: seq<Record>)
    requires ReadMessageBody(schema, name, s, depth, budget).Some?
    ensures IsVarint(length) && VarintValue(length) == |EncodeAll(rs)|
    ensures name in schema && MessageOk(schema, schema[name], rs, depth + 1)
    ensures var (m, left) := ReadMessageBody(schema, name, s, depth, budget).value;
            length + EncodeAll(rs) == s[..m] && CostAll(rs) == budget - left
    decreases |s|, 0
  {
    hide RecordOk, RecordsOk, Compatible, Satisfied, ScanFields, EncodeAll, CostAll, IsVarint, VarintValue;
    DelimitedFound(s);
    var (from, end) := ReadDelimited(s).value;
    length := s[..from];
    assert Scan(schema, schema[name], s[from..end], depth + 1, budget).Some?;
    rs := FieldsFound(schema, schema[name], s[from..end], depth + 1, budget, {}, {});
    assert s[..end] == s[..from] + s[from..end];
  }

  lemma {:induction false} FieldsFound(schema: Schema, d: Descriptor, s: Bytes, depth: nat, budget: nat,
                                       seen: set<int>, groups: set<string>) returns (rs: seq<Record>)
    requires ScanFields(schema, d, s, depth, budget, seen, groups).Some?
    ensures EncodeAll(rs) == s && RecordsOk(schema, d, rs, depth)
    ensures Compatible(d, rs, seen, groups) && Satisfied(d, rs, groups)
    ensures CostAll(rs) == budget - ScanFields(schema, d, s, depth, budget, seen, groups).value
    decreases |s|, 3
  {
    hide RecordOk, RecordsOk, Compatible, Satisfied, EncodeAll, CostAll, Encode, Cost, TagOf, ReadBody, ReadVarint;
    var p := Turn(schema, d, s, depth, budget, seen, groups);
    if p.Finished? {
      NoRecords(d, seen, groups);
      rs := [];
    } else {
      var r := FieldFound(schema, d, s, depth, budget, seen, groups);
      var rest := FieldsFound(schema, d, p.rest, depth, p.budget, p.seen, p.groups);
      rs := [r] + rest;
      RulesSplit(d, r, rest, seen, groups);
      Cons(schema, d, r, rest, depth);
    }
  }

  /** The record one turn of the loop has read. */
  lemma {:induction false} FieldFound(schema: Schema, d: Descriptor, s: Bytes, depth: nat, budget: nat,
                                      seen: set<int>, groups: set<string>) returns (r: Record)
    requires Turn(schema, d, s, depth, budget, seen, groups).Onward?
    ensures var p := Turn(schema, d, s, depth, budget, seen, groups);
            && RecordOk(schema, d, r, depth)
            && s == r.key + PayloadBytes(r.payload) + p.rest && Cost(r) == budget - p.budget
            && TagAllowed(d, TagOf(r), seen, groups)
            && p.seen == SeenAfter(d, TagOf(r), seen) && p.groups == GroupsAfter(d, TagOf(r), groups)
    decreases |s|, 2
  {
    hide RecordOk, Cost, ReadBody;
    var (key, n) := ReadVarint(s, 0).value;
    VarintFound(s, 0);
    var (m, left) := ReadBody(schema, d.fields[key / 8], key % 8, s[n..], depth, budget - 1).value;
    r := BodyFound(schema, d, s[..n], s[n..], depth, budget - 1);
    Pieces(s, n, m);
  }

  lemma Cons(schema: Schema, d: Descriptor, r: Record, rest: seq<Record>, depth: nat)
    requires RecordOk(schema, d, r, depth) && RecordsOk(schema, d, rest, depth)
    ensures RecordsOk(schema, d, [r] + rest, depth)
    ensures CostAll([r] + rest) == Cost(r) + CostAll(rest)
    ensures EncodeAll([r] + rest) == r.key + PayloadBytes(r.payload) + EncodeAll(rest)
  {
    assert ([r] + rest)[1..] == rest;
  }

  lemma Pieces(s: Bytes, n: nat, m: nat)
    requires n <= |s| && m <= |s| - n
    ensures s == s[..n] + s[n..][..m] + s[n + m..]
  {}

  // --- main results ---

  /** The scanner accepts exactly the messages of the grammar, on any schema, cyclic ones included. */
  lemma {:induction false} AcceptsIffMessage(schema: Schema, d: Descriptor, s: Bytes)
    ensures Accepts(schema, d, s) <==> IsMessage(schema, d, s)
  {
    if Accepts(schema, d, s) {
      var rs := FieldsFound(schema, d, s, 0, MAX_FIELDS, {}, {});
      assert MessageOk(schema, d, rs, 0);
    }
    if IsMessage(schema, d, s) {
      var rs :| EncodeAll(rs) == s && MessageOk(schema, d, rs, 0) && CostAll(rs) <= MAX_FIELDS;
      FieldsRead(schema, d, rs, 0, MAX_FIELDS, {}, {});
    }
  }

  /** Whatever order valid records come in, in the message and in every message nested in it,
      the verdict is the same. */
  lemma {:induction false} OrderDoesNotMatter(schema: Schema, d: Descriptor, a: seq<Record>, b: seq<Record>)
    requires Shuffled(a, b) && RecordsOk(schema, d, a, 0)
    ensures Accepts(schema, d, EncodeAll(a)) <==> Accepts(schema, d, EncodeAll(b))
  {
    hide RecordOk, Compatible, Satisfied, EncodeAll, CostAll, ScanFields, Shuffled;
    ShuffledAgree(schema, d, a, b, 0);
    FieldsRead(schema, d, a, 0, MAX_FIELDS, {}, {});
    FieldsRead(schema, d, b, 0, MAX_FIELDS, {}, {});
  }

  /** In particular for any permutation of the outermost records. */
  lemma PermutedAccepted(schema: Schema, d: Descriptor, a: seq<Record>, b: seq<Record>)
    requires multiset(a) == multiset(b) && RecordsOk(schema, d, a, 0)
    ensures Accepts(schema, d, EncodeAll(a)) <==> Accepts(schema, d, EncodeAll(b))
  {
    PermutedIsShuffled(a, b);
    OrderDoesNotMatter(schema, d, a, b);
  }
}
