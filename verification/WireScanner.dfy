/** The scanner itself: cursors, a shared budget and sets of what has been seen
    (native/protocol/strict_wire.cpp:13-124). */
module WireScanner {
  import opened Options
  import opened ByteStrings
  import opened WireGrammar
  import opened WireScan

  lemma Regroup(scale: nat, x: nat, v: nat)
    ensures scale * (x + 128 * v) == scale * x + (128 * scale) * v
    ensures scale * x >= 0
  {}

  /** After `k` bytes worth `value`, what remains completes the whole. */
  ghost predicate Completes(whole: Option<(nat, nat)>, rest: Option<(nat, nat)>, value: nat, scale: nat, k: nat) {
    && (whole.Some? <==> rest.Some?)
    && (whole.Some? ==> whole.value.0 == value + scale * rest.value.0 && whole.value.1 == k + rest.value.1)
  }

  lemma VarintByte(whole: Option<(nat, nat)>, bytes: Bytes, at: nat, value: nat, scale: nat, k: nat)
    requires at <= |bytes| && k <= 9 && Completes(whole, ReadVarint(bytes[at..], k), value, scale, k)
    ensures at == |bytes| || (k == 9 && bytes[at] > 1) ==> whole.None?
    ensures at < |bytes| && !(k == 9 && bytes[at] > 1) && bytes[at] < 128 ==>
              scale * bytes[at] >= 0 && whole.Some? &&
              whole.value.0 == value + scale * bytes[at] && whole.value.1 == k + 1
    ensures at < |bytes| && bytes[at] >= 128 && k < 9 ==>
              && scale * (bytes[at] % 128) >= 0
              && Completes(whole, ReadVarint(bytes[at + 1..], k + 1),
                           value + scale * (bytes[at] % 128), 128 * scale, k + 1)
  {
    if at < |bytes| {
      assert bytes[at..][0] == bytes[at] && bytes[at..][1..] == bytes[at + 1..];
      var later := if k < 9 then ReadVarint(bytes[at + 1..], k + 1) else None;
      Regroup(scale, bytes[at], 0);
      Regroup(scale, bytes[at] % 128, if later.Some? then later.value.0 else 0);
    }
  }

  method Varint(bytes: Bytes, start: nat) returns (ok: bool, value: nat, at: nat)
    requires start <= |bytes|
    ensures ok <==> ReadVarint(bytes[start..], 0).Some?
    ensures ok ==> value == ReadVarint(bytes[start..], 0).value.0 && at == start + ReadVarint(bytes[start..], 0).value.1
    ensures ok ==> start < at <= |bytes|
  {
    hide ReadVarint;
    ok, value, at := false, 0, start;
    var k: nat, scale: nat := 0, 1;
    ghost var whole := ReadVarint(bytes[start..], 0);
    while k <= 9
      invariant 0 <= k <= 9 && at == start + k <= |bytes|
      invariant Completes(whole, ReadVarint(bytes[at..], k), value, scale, k)
      decreases 9 - k
    {
      VarintByte(whole, bytes, at, value, scale, k);
      if at == |bytes| || (k == 9 && bytes[at] > 1) {
        return;
      }
      var byte := bytes[at];
      if byte < 128 {
        value, at, ok := value + scale * byte, at + 1, true;
        return;
      }
      value, scale := value + scale * (byte % 128), 128 * scale;
      at, k := at + 1, k + 1;
    }
  }

  /** The content of a length-delimited field, as bounds. */
  method LengthDelimited(bytes: Bytes, start: nat) returns (ok: bool, from: nat, end: nat)
    requires start <= |bytes|
    ensures ok <==> ReadDelimited(bytes[start..]).Some?
    ensures ok ==> from == start + ReadDelimited(bytes[start..]).value.0
    ensures ok ==> end == start + ReadDelimited(bytes[start..]).value.1
    ensures ok ==> start < from <= end <= |bytes|
  {
    var length;
    ok, length, from := Varint(bytes, start);
    end := from;
    if ok {
      if length > |bytes| - from {
        return false, from, end;
      }
      end := from + length;
    }
  }

  method ScanScalar(k: FieldType, bytes: Bytes, start: nat) returns (ok: bool, at: nat)
    requires start <= |bytes|
    ensures ok <==> ReadScalar(k, bytes[start..]).Some?
    ensures ok ==> at == start + ReadScalar(k, bytes[start..]).value && start < at <= |bytes|
  {
    ok, at := false, start;
    match WireType(k)
    case None =>
    case Some(w) =>
      if w == 0 {
        var value;
        ok, value, at := Varint(bytes, start);
        ok := ok && !VarintRefused(k, value);
      } else if w == 1 {
        if |bytes| - start >= 8 {
          assert bytes[start..][..8] == bytes[start..start + 8];
          ok, at := !k.DoubleType? || IsFinite64(Bits(bytes[start..start + 8])), start + 8;
        }
      } else if w == 5 {
        if |bytes| - start >= 4 {
          assert bytes[start..][..4] == bytes[start..start + 4];
          ok, at := !k.FloatType? || IsFinite32(Bits(bytes[start..start + 4])), start + 4;
        }
      } else {
        var from;
        ok, from, at := LengthDelimited(bytes, start);
      }
  }

  lemma PackedTurn(k: FieldType, bytes: Bytes, at: nat, left: nat)
    requires at < |bytes|
    ensures left == 0 || ReadScalar(k, bytes[at..]).None? ==> ReadPacked(k, bytes[at..], left).None?
    ensures left > 0 && ReadScalar(k, bytes[at..]).Some? ==>
              ReadPacked(k, bytes[at..], left) ==
              ReadPacked(k, bytes[at + ReadScalar(k, bytes[at..]).value..], left - 1)
  {
    hide ReadScalar;
    if ReadScalar(k, bytes[at..]).Some? {
      var n := ReadScalar(k, bytes[at..]).value;
      assert bytes[at..][n..] == bytes[at + n..];
    }
  }

  method ScanPacked(k: FieldType, bytes: Bytes, budget: nat) returns (ok: bool, left: nat)
    ensures ok <==> ReadPacked(k, bytes, budget).Some?
    ensures ok ==> left == ReadPacked(k, bytes, budget).value
  {
    hide ReadScalar;
    left := budget;
    var at := 0;
    assert bytes[0..] == bytes;
    while at < |bytes|
      invariant at <= |bytes|
      invariant ReadPacked(k, bytes[at..], left) == ReadPacked(k, bytes, budget)
    {
      PackedTurn(k, bytes, at, left);
      if left == 0 {
        return false, left;
      }
      var fine, next := ScanScalar(k, bytes, at);
      if !fine {
        return false, left;
      }
      left, at := left - 1, next;
    }
    return true, left;
  }

  method ScanPackedBody(k: FieldType, bytes: Bytes, start: nat, budget: nat) returns (ok: bool, at: nat, left: nat)
    requires start <= |bytes|
    ensures ok <==> ReadPackedBody(k, bytes[start..], budget).Some?
    ensures ok ==> var r := ReadPackedBody(k, bytes[start..], budget).value; at == start + r.0 <= |bytes| && left == r.1
  {
    hide ReadPacked, ReadDelimited;
    var from;
    left := budget;
    ok, from, at := LengthDelimited(bytes, start);
    if ok {
      assert bytes[start..][from - start..at - start] == bytes[from..at];
      ok, left := ScanPacked(k, bytes[from..at], budget);
    }
  }

  method ScanMessageBody(schema: Schema, name: string, bytes: Bytes, start: nat, depth: nat, budget: nat)
    returns (ok: bool, at: nat, left: nat)
    requires start <= |bytes|
    ensures ok <==> ReadMessageBody(schema, name, bytes[start..], depth, budget).Some?
    ensures ok ==> var r := ReadMessageBody(schema, name, bytes[start..], depth, budget).value;
                   at == start + r.0 <= |bytes| && left == r.1
    decreases |bytes| - start, 0
  {
    hide Scan, ReadDelimited;
    var from;
    left := budget;
    ok, from, at := LengthDelimited(bytes, start);
    if ok {
      assert bytes[start..][from - start..at - start] == bytes[from..at];
      if name !in schema {
        return false, at, left;
      }
      ok, left := ScanMessage(schema, schema[name], bytes[from..at], depth + 1, budget);
    }
  }

  /** The value behind a key: where it ends and the budget left. */
  method ScanBody(schema: Schema, f: Field, wire: int, bytes: Bytes, start: nat, depth: nat, budget: nat)
    returns (ok: bool, at: nat, left: nat)
    requires start <= |bytes|
    ensures ok <==> ReadBody(schema, f, wire, bytes[start..], depth, budget).Some?
    ensures ok ==> var r := ReadBody(schema, f, wire, bytes[start..], depth, budget).value;
                   at == start + r.0 <= |bytes| && left == r.1
    decreases |bytes| - start, 1
  {
    hide ReadPackedBody, ReadMessageBody;
    ok, at, left := false, start, budget;
    if WireType(f.kind).None? {
      return;
    }
    if IsPacked(f, wire) {
      ok, at, left := ScanPackedBody(f.kind, bytes, start, budget);
    } else if WireType(f.kind) != Some(wire) {
      return;
    } else if f.kind.MessageType? {
      ok, at, left := ScanMessageBody(schema, f.kind.name, bytes, start, depth, budget);
    } else {
      ok, at := ScanScalar(f.kind, bytes, start);
    }
  }

  /** One key and its value. */
  method ScanField(schema: Schema, d: Descriptor, bytes: Bytes, at: nat, depth: nat, budget: nat,
                   seen: set<int>, groups: set<string>)
    returns (ok: bool, end: nat, left: nat, seen': set<int>, groups': set<string>)
    requires at < |bytes|
    ensures var p := Turn(schema, d, bytes[at..], depth, budget, seen, groups);
            && (ok <==> p.Onward?) && (!ok ==> p.Stopped?)
            && (ok ==> at < end <= |bytes| && p == Onward(bytes[end..], left, seen', groups'))
    decreases |bytes| - at, 2
  {
    hide ReadBody, ReadVarint;
    end, left, seen', groups' := at, budget, seen, groups;
    if budget == 0 {
      return false, end, left, seen', groups';
    }
    var key, next;
    ok, key, next := Varint(bytes, at);
    if !ok || !TagAllowed(d, key / 8, seen, groups) {
      return false, end, left, seen', groups';
    }
    var tag := key / 8;
    assert bytes[at..][next - at..] == bytes[next..];
    ok, end, left := ScanBody(schema, d.fields[tag], key % 8, bytes, next, depth, budget - 1);
    if ok {
      assert bytes[at..][end - at..] == bytes[end..];
      seen', groups' := SeenAfter(d, tag, seen), GroupsAfter(d, tag, groups);
    }
  }

  /** `scan`: recursive over nested messages, terminating because they are shorter than what holds them. */
  method ScanMessage(schema: Schema, d: Descriptor, bytes: Bytes, depth: nat, budget: nat) returns (ok: bool, left: nat)
    ensures ok <==> Scan(schema, d, bytes, depth, budget).Some?
    ensures ok ==> left == Scan(schema, d, bytes, depth, budget).value
    decreases |bytes|, 3
  {
    left := budget;
    if depth >= 64 {
      return false, left;
    }
    var at := 0;
    var seen: set<int>, groups: set<string> := {}, {};
    assert bytes[0..] == bytes;
    while at < |bytes|
      invariant at <= |bytes|
      invariant ScanFields(schema, d, bytes[at..], depth, left, seen, groups) == Scan(schema, d, bytes, depth, budget)
      decreases |bytes| - at
    {
      ok, at, left, seen, groups := ScanField(schema, d, bytes, at, depth, left, seen, groups);
      if !ok {
        return false, left;
      }
    }
    LastTurn(schema, d, bytes[at..], depth, left, seen, groups);
    return d.required <= groups, left;
  }

  lemma LastTurn(schema: Schema, d: Descriptor, s: Bytes, depth: nat, left: nat, seen: set<int>, groups: set<string>)
    requires s == []
    ensures ScanFields(schema, d, s, depth, left, seen, groups) == if d.required <= groups then Some(left) else None
  {}

  /** Accepted exactly when the bytes are a message of the grammar within both limits. */
  method Validate(schema: Schema, d: Descriptor, bytes: Bytes) returns (ok: bool)
    ensures ok <==> IsMessage(schema, d, bytes)
  {
    AcceptsIffMessage(schema, d, bytes);
    if |bytes| > MAX_BYTES {
      return false;
    }
    var left;
    ok, left := ScanMessage(schema, d, bytes, 0, MAX_FIELDS);
  }
}
