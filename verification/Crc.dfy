/** The CRC-16 of DYNAMIXEL Protocol 2.0, as the Python model and the C++ helper compute it
    (native/dhi/model.py:18-24, native/dynamixel/helper.cpp:27-31).
    Integers are their bits, lowest first. */
module Crc {
  import opened ByteStrings

  type Bits = seq<bool>

  /** The `n` lowest bits of a number. */
  function ToBits(x: nat, n: nat): (b: Bits)
    ensures |b| == n
  {
    if n == 0 then [] else [x % 2 == 1] + ToBits(x / 2, n - 1)
  }

  function Value(b: Bits): nat {
    if b == [] then 0 else (if b[0] then 1 else 0) + 2 * Value(b[1..])
  }

  function Zeros(n: nat): Bits {
    seq(n, _ => false)
  }

  function Xor(a: Bits, b: Bits): (c: Bits)
    requires |a| == |b|
    ensures |c| == |a|
  {
    seq(|a|, i requires 0 <= i < |a| => a[i] != b[i])
  }

  /** A 16-bit register. */
  type Register = v: Bits | |v| == 16 witness Zeros(16)

  /** 0x8005. */
  const POLY: Bits := [true, false, true] + Zeros(12) + [true]

  /** `byte << 8`. */
  function High(b: Byte): (v: Register) {
    Zeros(8) + ToBits(b, 8)
  }

  /** One shift on 16 bits: the bit pushed out selects the polynomial. */
  function Shift(v: Register): Register {
    var s := [false] + v[..15];
    if v[15] then Xor(s, POLY) else s
  }

  function Shifts(v: Register, n: nat): Register {
    if n == 0 then v else Shift(Shifts(v, n - 1))
  }

  /** The checksum from a running value. */
  function From(v: Register, data: seq<Byte>): Register {
    if data == [] then v
    else Shifts(Xor(From(v, data[..|data| - 1]), High(data[|data| - 1])), 8)
  }

  function Checksum(data: seq<Byte>): Register {
    From(Zeros(16), data)
  }

  // --- the two implementations ---

  /** The C++ version: a 16-bit variable that drops what is shifted out. */
  method ChecksumCpp(data: seq<Byte>) returns (value: Register)
    ensures value == Checksum(data)
  {
    value := Zeros(16);
    for i := 0 to |data|
      invariant value == From(Zeros(16), data[..i])
    {
      assert data[..i + 1][..i] == data[..i];
      value := Xor(value, High(data[i]));
      ghost var start := value;
      for j := 0 to 8
        invariant value == Shifts(start, j)
      {
        value := if value[15] then Xor([false] + value[..15], POLY) else [false] + value[..15];
      }
    }
    assert data[..|data|] == data;
  }

  lemma MaskedShift(v: Register)
    ensures ([false] + v)[..16] == [false] + v[..15]
    ensures Xor([false] + v, POLY + [false])[..16] == Xor([false] + v[..15], POLY)
  {}

  /** The Python version: the integer grows to 17 bits and is masked to 16 after each shift. */
  method ChecksumPython(data: seq<Byte>) returns (value: Register)
    ensures value == Checksum(data)
  {
    value := Zeros(16);
    for i := 0 to |data|
      invariant value == From(Zeros(16), data[..i])
    {
      assert data[..i + 1][..i] == data[..i];
      value := Xor(value, High(data[i]));
      ghost var start := value;
      for j := 0 to 8
        invariant value == Shifts(start, j)
      {
        MaskedShift(value);
        var wide := [false] + value;
        value := (if value[15] then Xor(wide, POLY + [false]) else wide)[..16];
      }
    }
    assert data[..|data|] == data;
  }

  // --- linearity and injectivity ---

  lemma ShiftLinear(a: Register, b: Register)
    ensures Shift(Xor(a, b)) == Xor(Shift(a), Shift(b))
  {}

  lemma ShiftInjective(a: Register, b: Register)
    requires Shift(a) == Shift(b)
    ensures a == b
  {
    assert Shift(a)[0] == a[15] && Shift(b)[0] == b[15];
    forall i | 0 <= i < 15 ensures a[i] == b[i] {
      assert Shift(a)[i + 1] == if a[15] then a[i] != POLY[i + 1] else a[i];
      assert Shift(b)[i + 1] == if b[15] then b[i] != POLY[i + 1] else b[i];
    }
  }

  lemma {:induction false} ShiftsLinear(a: Register, b: Register, n: nat)
    ensures Shifts(Xor(a, b), n) == Xor(Shifts(a, n), Shifts(b, n))
    decreases n
  {
    if n > 0 {
      ShiftsLinear(a, b, n - 1);
      ShiftLinear(Shifts(a, n - 1), Shifts(b, n - 1));
    }
  }

  lemma {:induction false} ShiftsInjective(a: Register, b: Register, n: nat)
    requires Shifts(a, n) == Shifts(b, n)
    ensures a == b
    decreases n
  {
    if n > 0 {
      ShiftInjective(Shifts(a, n - 1), Shifts(b, n - 1));
      ShiftsInjective(a, b, n - 1);
    }
  }

  lemma XorCancels(a: Register, b: Register, c: Register)
    requires Xor(a, c) == Xor(b, c)
    ensures a == b
  {
    forall i | 0 <= i < 16 ensures a[i] == b[i] {
      assert Xor(a, c)[i] == Xor(b, c)[i];
    }
  }

  /** Equal bytes never bring different running values together. */
  lemma {:induction false} FromInjective(v: Register, w: Register, data: seq<Byte>)
    requires From(v, data) == From(w, data)
    ensures v == w
    decreases |data|
  {
    if data != [] {
      var init, h := data[..|data| - 1], High(data[|data| - 1]);
      ShiftsInjective(Xor(From(v, init), h), Xor(From(w, init), h), 8);
      XorCancels(From(v, init), From(w, init), h);
      FromInjective(v, w, init);
    }
  }

  lemma {:induction false} FromConcat(v: Register, a: seq<Byte>, b: seq<Byte>)
    ensures From(v, a + b) == From(From(v, a), b)
    decreases |b|
  {
    if b == [] {
      assert a + b == a;
    } else {
      var ab := a + b;
      assert ab[..|ab| - 1] == a + b[..|b| - 1] && ab[|ab| - 1] == b[|b| - 1];
      FromConcat(v, a, b[..|b| - 1]);
    }
  }

  /** A value in the low byte is moved to the high byte by eight shifts: nothing is pushed out. */
  lemma {:induction false} LowByteMoves(y: Bits, n: nat)
    requires |y| == 8 && n <= 8
    ensures Shifts(y + Zeros(8), n) == Zeros(n) + y + Zeros(8 - n)
    decreases n
  {
    if n > 0 {
      LowByteMoves(y, n - 1);
    }
  }

  /** So eight shifts of a high byte are never a high byte, unless both are zero. */
  lemma HighByteSpills(x: Bits, y: Bits)
    requires |x| == 8 && |y| == 8
    requires Shifts(Zeros(8) + x, 8) == Zeros(8) + y
    ensures x == Zeros(8) && y == Zeros(8)
  {
    LowByteMoves(y, 8);
    assert Zeros(8) + y + Zeros(0) == Zeros(8) + y;
    ShiftsInjective(Zeros(8) + x, y + Zeros(8), 8);
    var v, w := Zeros(8) + x, y + Zeros(8);
    forall i | 0 <= i < 8 ensures !x[i] && !y[i] {
      assert v[i] == w[i] && v[8 + i] == w[8 + i];
    }
  }

  lemma {:induction false} BitsInjective(x: nat, y: nat, n: nat)
    requires ToBits(x, n) == ToBits(y, n) && x < Power(n) && y < Power(n)
    ensures x == y
    decreases n
  {
    if n > 0 {
      assert ToBits(x, n)[1..] == ToBits(x / 2, n - 1) && ToBits(y, n)[1..] == ToBits(y / 2, n - 1);
      assert ToBits(x, n)[0] == (x % 2 == 1) && ToBits(y, n)[0] == (y % 2 == 1);
      BitsInjective(x / 2, y / 2, n - 1);
    }
  }

  function Power(n: nat): nat {
    if n == 0 then 1 else 2 * Power(n - 1)
  }

  /** Two bytes fed to the same register: different pairs leave different registers. */
  lemma TwoBytesInjective(v: Register, x1: Byte, x2: Byte, y1: Byte, y2: Byte)
    requires From(v, [x1, x2]) == From(v, [y1, y2])
    ensures x1 == y1 && x2 == y2
  {
    var p, q := Shifts(Xor(v, High(x1)), 8), Shifts(Xor(v, High(y1)), 8);
    TwoBytes(v, x1, x2);
    TwoBytes(v, y1, y2);
    ShiftsInjective(Xor(p, High(x2)), Xor(q, High(y2)), 8);
    ShiftsLinear(v, High(x1), 8);
    ShiftsLinear(v, High(y1), 8);
    ShiftsLinear(High(x1), High(y1), 8);
    var d1, d2 := Xor(ToBits(x1, 8), ToBits(y1, 8)), Xor(ToBits(x2, 8), ToBits(y2, 8));
    assert Xor(High(x1), High(y1)) == Zeros(8) + d1;
    Transpose(Shifts(v, 8), Shifts(High(x1), 8), High(x2), Shifts(High(y1), 8), High(y2));
    assert Xor(High(x2), High(y2)) == Zeros(8) + d2;
    HighByteSpills(d1, d2);
    ZeroXor(x1, y1);
    ZeroXor(x2, y2);
  }

  lemma TwoBytes(v: Register, a: Byte, b: Byte)
    ensures From(v, [a, b]) == Shifts(Xor(Shifts(Xor(v, High(a)), 8), High(b)), 8)
  {
    var ab, one := [a, b], [a];
    assert ab[..|ab| - 1] == one && one[..|one| - 1] == [];
    assert From(v, one) == Shifts(Xor(From(v, one[..|one| - 1]), High(a)), 8);
  }

  lemma Transpose(s: Register, a: Register, b: Register, c: Register, d: Register)
    requires Xor(Xor(s, a), b) == Xor(Xor(s, c), d)
    ensures Xor(a, c) == Xor(b, d)
  {
    forall i | 0 <= i < 16 ensures Xor(a, c)[i] == Xor(b, d)[i] {
      assert Xor(Xor(s, a), b)[i] == Xor(Xor(s, c), d)[i];
    }
  }

  lemma ZeroXor(x: Byte, y: Byte)
    requires Xor(ToBits(x, 8), ToBits(y, 8)) == Zeros(8)
    ensures x == y
  {
    forall i | 0 <= i < 8 ensures ToBits(x, 8)[i] == ToBits(y, 8)[i] {
      assert Xor(ToBits(x, 8), ToBits(y, 8))[i] == Zeros(8)[i];
    }
    assert Power(8) == 256 by { assert Power(4) == 16; }
    BitsInjective(x, y, 8);
  }

  /** The checksum tells apart any two strings of one length that differ
      only within two adjacent bytes. */
  lemma AdjacentErrorsDetected(s: seq<Byte>, t: seq<Byte>, i: nat)
    requires |s| == |t| && i < |s| && s != t
    requires forall k | 0 <= k < |s| && k != i && k != i + 1 :: s[k] == t[k]
    ensures Checksum(s) != Checksum(t)
  {
    if |s| == 1 {
      LastByteDetected([], s[0], t[0]);
      assert s == [] + [s[0]] && t == [] + [t[0]];
    } else {
      PairDetected(s, t, if i + 1 < |s| then i else i - 1);
    }
  }

  lemma LastByteDetected(a: seq<Byte>, x: Byte, y: Byte)
    requires x != y
    ensures Checksum(a + [x]) != Checksum(a + [y])
  {
    var v := Checksum(a);
    assert (a + [x])[..|a|] == a && (a + [y])[..|a|] == a;
    if Checksum(a + [x]) == Checksum(a + [y]) {
      ShiftsInjective(Xor(v, High(x)), Xor(v, High(y)), 8);
      Transpose(v, High(x), Zeros(16), High(y), Zeros(16));
      HighEqual(x, y);
    }
  }

  lemma HighEqual(x: Byte, y: Byte)
    requires Xor(High(x), High(y)) == Xor(Zeros(16), Zeros(16))
    ensures x == y
  {
    forall i | 0 <= i < 8 ensures !Xor(ToBits(x, 8), ToBits(y, 8))[i] {
      assert Xor(High(x), High(y))[8 + i] == Xor(Zeros(16), Zeros(16))[8 + i];
    }
    ZeroXor(x, y);
  }

  lemma PairDetected(s: seq<Byte>, t: seq<Byte>, i: nat)
    requires |s| == |t| && i + 1 < |s| && s != t
    requires forall k | 0 <= k < |s| && k != i && k != i + 1 :: s[k] == t[k]
    ensures Checksum(s) != Checksum(t)
  {
    var a, c := s[..i], s[i + 2..];
    var p, q := [s[i], s[i + 1]], [t[i], t[i + 1]];
    assert s == a + (p + c) && t == a + (q + c);
    var v := From(Zeros(16), a);
    FromConcat(Zeros(16), a, p + c);
    FromConcat(Zeros(16), a, q + c);
    FromConcat(v, p, c);
    FromConcat(v, q, c);
    if From(v, p) == From(v, q) {
      TwoBytesInjective(v, s[i], s[i + 1], t[i], t[i + 1]);
    } else if From(From(v, p), c) == From(From(v, q), c) {
      FromInjective(From(v, p), From(v, q), c);
    }
  }
}
