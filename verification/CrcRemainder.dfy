/** The checksum as what it is meant to be: the remainder of the message, times x^16, on division by
    x^16 + x^15 + x^2 + 1 over the integers modulo 2. */
module CrcRemainder {
  import opened ByteStrings
  import opened Crc

  /** Coefficients of a polynomial, constant term first. */
  type Poly = seq<bool>

  /** x^16 + x^15 + x^2 + 1. */
  const GENERATOR: Poly :=
    [true, false, true, false, false, false, false, false, false, false, false, false, false, false, false, true, true]

  /** The bits of a message as they are fed in: byte after byte, highest bit first. */
  function HighFirst(b: Byte): (r: seq<bool>)
    ensures |r| == 8
  {
    var bits := ToBits(b, 8);
    seq(8, i requires 0 <= i < 8 => bits[7 - i])
  }

  function MessageBits(data: seq<Byte>): (r: seq<bool>)
    ensures |r| == 8 * |data|
  {
    if data == [] then [] else MessageBits(data[..|data| - 1]) + HighFirst(data[|data| - 1])
  }

  /** The message polynomial times x^16: the first bit is the highest coefficient. */
  function Scaled(bits: seq<bool>): (p: Poly)
    ensures |p| == |bits| + 16
  {
    seq(|bits| + 16, i requires 0 <= i < |bits| + 16 => i >= 16 && bits[|bits| + 15 - i])
  }

  /** The generator or nothing, with room for `n` more coefficients. */
  function Times(t: bool, n: nat): (p: Poly)
    ensures |p| == n + 17
  {
    if t then GENERATOR + Zeros(n) else Zeros(n + 17)
  }

  /** The product of the generator and a polynomial given by its coefficients, highest first. */
  function Product(q: seq<bool>): (p: Poly)
    ensures |p| == |q| + 16
  {
    if q == [] then Zeros(16)
    else
      var n := |q| - 1;
      Xor([false] + Product(q[..n]), Times(q[n], n))
  }

  // --- one bit at a time ---

  /** The register takes in one bit. */
  function BitStep(v: Register, b: bool): Register {
    var s := [false] + v[..15];
    if v[15] != b then Xor(s, GENERATOR[..16]) else s
  }

  function BitsFrom(v: Register, bits: seq<bool>): Register {
    if bits == [] then v else BitStep(BitsFrom(v, bits[..|bits| - 1]), bits[|bits| - 1])
  }

  lemma GeneratorIsPoly()
    ensures GENERATOR[..16] == POLY && GENERATOR[16]
  {}

  /** The bits of `b` still to come after `k` shifts, at the top of the register. */
  function Rest(b: Byte, k: nat): Register
    requires k <= 8
  {
    var bits := ToBits(b, 8);
    seq(16, i requires 0 <= i < 16 => i >= 8 + k && bits[i - 8 - k])
  }

  lemma RestMoves(b: Byte, k: nat)
    requires k < 8
    ensures Rest(b, k)[15] == HighFirst(b)[k] && [false] + Rest(b, k)[..15] == Rest(b, k + 1)
  {}

  lemma RestEnds(b: Byte)
    ensures Rest(b, 0) == High(b) && Rest(b, 8) == Zeros(16)
  {
    assert ToBits(b, 8) == Rest(b, 0)[8..];
  }

  lemma ShiftTakesIn(w: Register, rest: Register)
    ensures Shift(Xor(w, rest)) == Xor(BitStep(w, rest[15]), [false] + rest[..15])
  {
    GeneratorIsPoly();
    var s, t := [false] + w[..15], [false] + rest[..15];
    assert [false] + Xor(w, rest)[..15] == Xor(s, t);
    assert Xor(Xor(s, t), POLY) == Xor(Xor(s, POLY), t);
  }

  lemma {:induction false} ByteBitByBit(v: Register, b: Byte, k: nat)
    requires k <= 8
    ensures Shifts(Xor(v, High(b)), k) == Xor(BitsFrom(v, HighFirst(b)[..k]), Rest(b, k))
    decreases k
  {
    hide HighFirst, Rest, High, Shift, BitStep;
    if k == 0 {
      RestEnds(b);
      assert HighFirst(b)[..0] == [];
    } else {
      ByteBitByBit(v, b, k - 1);
      var w := BitsFrom(v, HighFirst(b)[..k - 1]);
      ShiftTakesIn(w, Rest(b, k - 1));
      RestMoves(b, k - 1);
      assert HighFirst(b)[..k][..k - 1] == HighFirst(b)[..k - 1];
    }
  }

  lemma {:induction false} BitsFromJoins(v: Register, a: seq<bool>, b: seq<bool>)
    ensures BitsFrom(v, a + b) == BitsFrom(BitsFrom(v, a), b)
    decreases |b|
  {
    if b == [] {
      assert a + b == a;
    } else {
      assert (a + b)[..|a + b| - 1] == a + b[..|b| - 1];
      BitsFromJoins(v, a, b[..|b| - 1]);
    }
  }

  lemma {:induction false} FromIsBitByBit(v: Register, data: seq<Byte>)
    ensures From(v, data) == BitsFrom(v, MessageBits(data))
    decreases |data|
  {
    if data != [] {
      var init, last := data[..|data| - 1], data[|data| - 1];
      FromIsBitByBit(v, init);
      var w := From(v, init);
      ByteBitByBit(w, last, 8);
      RestEnds(last);
      assert HighFirst(last)[..8] == HighFirst(last);
      assert Xor(BitsFrom(w, HighFirst(last)), Zeros(16)) == BitsFrom(w, HighFirst(last));
      BitsFromJoins(v, MessageBits(init), HighFirst(last));
    }
  }

  // --- the remainder ---

  /** One more bit on both sides of the division. */
  lemma OneBitDivides(r: Register, b: bool, n: nat)
    ensures var one := seq(n + 17, i => i == 16 && b);
            Xor([false] + r + Zeros(n), one) ==
            Xor(Times(r[15] != b, n), BitStep(r, b) + Zeros(n + 1))
  {
    GeneratorIsPoly();
  }

  lemma ScaledGrows(bits: seq<bool>, b: bool)
    ensures Scaled(bits + [b]) == Xor([false] + Scaled(bits), seq(|bits| + 17, i => i == 16 && b))
  {}

  lemma XorSwaps(a: Poly, b: Poly, c: Poly, d: Poly, e: Poly)
    requires |a| == |b| == |c| == |d| == |e| && Xor(b, c) == Xor(d, e)
    ensures Xor(Xor(a, b), c) == Xor(Xor(a, d), e)
  {
    forall i | 0 <= i < |a| ensures Xor(Xor(a, b), c)[i] == Xor(Xor(a, d), e)[i] {
      assert Xor(b, c)[i] == Xor(d, e)[i];
    }
  }

  lemma {:induction false} Divides(bits: seq<bool>) returns (q: seq<bool>)
    ensures |q| == |bits|
    ensures Scaled(bits) == Xor(Product(q), BitsFrom(Zeros(16), bits) + Zeros(|bits|))
    decreases |bits|
  {
    hide BitStep, Product, Scaled, Times;
    if bits == [] {
      q := [];
      NothingDivides();
    } else {
      var n := |bits| - 1;
      var init, b := bits[..n], bits[n];
      var p := Divides(init);
      var r := BitsFrom(Zeros(16), init);
      var t := r[15] != b;
      q := p + [t];
      ProductGrows(p, t);
      ScaledGrows(init, b);
      assert bits == init + [b];
      OneBitDivides(r, b, n);
      assert [false] + Xor(Product(p), r + Zeros(n)) == Xor([false] + Product(p), [false] + r + Zeros(n));
      XorSwaps([false] + Product(p), [false] + r + Zeros(n), seq(n + 17, i => i == 16 && b),
               Times(t, n), BitStep(r, b) + Zeros(n + 1));
    }
  }

  lemma NothingDivides()
    ensures Scaled([]) == Xor(Product([]), BitsFrom(Zeros(16), []) + Zeros(0))
  {}

  lemma ProductGrows(p: seq<bool>, t: bool)
    ensures Product(p + [t]) == Xor([false] + Product(p), Times(t, |p|))
  {
    hide Xor, Zeros, Times;
    var q, n := p + [t], |p|;
    assert |q| - 1 == n && q[..n] == p && q[n] == t;
  }

  /** The message times x^16 is a multiple of the generator plus the checksum. */
  lemma {:induction false} ChecksumIsRemainder(data: seq<Byte>) returns (q: seq<bool>)
    ensures |q| == 8 * |data|
    ensures Scaled(MessageBits(data)) == Xor(Product(q), Checksum(data) + Zeros(8 * |data|))
  {
    FromIsBitByBit(Zeros(16), data);
    q := Divides(MessageBits(data));
  }
}
