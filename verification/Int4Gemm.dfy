// The packed int4 product of examples/int4_gemm.py. An int8 value is an integer in [-128, 127];
// the bit operations are written as arithmetic: `x & 0xF` is x % 16, `x >> 4` is x / 16 rounded
// down, and a left shift wraps.
module Int4Gemm {
  import opened Sums
  import opened Tiling

  type Int8 = x: int | -128 <= x < 128

  function Wrap(x: int): Int8 {
    (x + 128) % 256 - 128
  }

  /** (lo & 0xF) | (hi << 4): the two halves share no bit. */
  function PackByte(lo: Int8, hi: Int8): Int8 {
    lo % 16 + Wrap(hi * 16)
  }

  /** The kernel's decode: mask and subtract 16; arithmetic shift. */
  function KernelLow(b: Int8): Int8 {
    var raw := b % 16;
    if raw >= 8 then raw - 16 else raw
  }

  function High(b: Int8): Int8 {
    b / 16
  }

  /** The reference's decode of the low half: shift left in int8, then back. */
  function ReferenceLow(b: Int8): Int8 {
    Wrap(b * 16) / 16
  }

  lemma WrapMultiple(q: int, x: int)
    requires 0 <= x < 256
    ensures Wrap(256 * q + x) == if x < 128 then x else x - 256
  {
    assert 256 * q + x + 128 == 256 * (if x < 128 then q else q + 1) + (if x < 128 then x + 128 else x - 128);
  }

  lemma LowDecodersAgree(b: Int8)
    ensures KernelLow(b) == ReferenceLow(b)
    ensures -8 <= KernelLow(b) < 8 && -8 <= High(b) < 8
  {
    var q, r := b / 16, b % 16;
    WrapMultiple(q, 16 * r);
    assert b * 16 == 256 * q + 16 * r;
    assert Wrap(b * 16) == 16 * KernelLow(b);
  }

  lemma WrapSixteen(hi: Int8)
    ensures exists q: int :: -8 <= q < 8 && Wrap(hi * 16) == 16 * q && (-8 <= hi < 8 ==> q == hi)
  {
    var q := (hi + 8) % 16 - 8;
    assert Wrap(hi * 16) == 16 * q;
  }

  /** A pair survives packing exactly when both values are 4-bit. */
  lemma RoundTripIff(lo: Int8, hi: Int8)
    ensures ReferenceLow(PackByte(lo, hi)) == lo && High(PackByte(lo, hi)) == hi <==> -8 <= lo < 8 && -8 <= hi < 8
  {
    hide Wrap, ReferenceLow;
    var b := PackByte(lo, hi);
    LowDecodersAgree(b);
    WrapSixteen(hi);
    var q: int :| -8 <= q < 8 && Wrap(hi * 16) == 16 * q && (-8 <= hi < 8 ==> q == hi);
    assert b == lo % 16 + 16 * q;
    assert High(b) == q && b % 16 == lo % 16;
  }

  /** Every byte survives unpacking. */
  lemma PackInvertsUnpackByte(b: Int8)
    ensures PackByte(ReferenceLow(b), High(b)) == b
  {
    hide Wrap, ReferenceLow;
    LowDecodersAgree(b);
    WrapSixteen(High(b));
  }

  type Matrix = seq<seq<Int8>>

  predicate Shape(m: Matrix, rows: nat, cols: nat) {
    |m| == rows && forall i :: 0 <= i < rows ==> |m[i]| == cols
  }

  ghost predicate FourBit(m: Matrix) {
    forall i, j :: 0 <= i < |m| && 0 <= j < |m[i]| ==> -8 <= m[i][j] < 8
  }

  /** _pack_int4_matrix. */
  function Pack(codes: Matrix, half: nat, cols: nat): (packed: Matrix)
    requires Shape(codes, 2 * half, cols)
    ensures Shape(packed, half, cols)
  {
    seq(half, i requires 0 <= i < half => seq(cols, j requires 0 <= j < cols => PackByte(codes[2 * i][j], codes[2 * i + 1][j])))
  }

  /** _unpack_int4_matrix. */
  function Unpack(packed: Matrix, half: nat, cols: nat): (codes: Matrix)
    requires Shape(packed, half, cols)
    ensures Shape(codes, 2 * half, cols)
  {
    seq(2 * half, i requires 0 <= i < 2 * half => seq(cols, j requires 0 <= j < cols =>
      if i % 2 == 0 then ReferenceLow(packed[i / 2][j]) else High(packed[i / 2][j])))
  }

  lemma UnpackInvertsPack(codes: Matrix, half: nat, cols: nat)
    requires Shape(codes, 2 * half, cols) && FourBit(codes)
    ensures Unpack(Pack(codes, half, cols), half, cols) == codes
  {
    hide PackByte, ReferenceLow, High;
    var back := Unpack(Pack(codes, half, cols), half, cols);
    forall i | 0 <= i < 2 * half
      ensures back[i] == codes[i]
    {
      assert i == 2 * (i / 2) + i % 2;
      forall j | 0 <= j < cols
        ensures back[i][j] == codes[i][j]
      {
        RoundTripIff(codes[2 * (i / 2)][j], codes[2 * (i / 2) + 1][j]);
      }
    }
  }

  datatype Problem = Problem(m: nat, n: nat, half: nat, a: (int, int) -> real, b: Matrix)

  predicate Valid(p: Problem) {
    Shape(p.b, p.half, p.n)
  }

  /** Row k of the interleaved tile: the low half of byte k / 2, then its high half. */
  function Interleaved(p: Problem, k: int, j: int): Int8
    requires Valid(p)
  {
    if 0 <= k < 2 * p.half && 0 <= j < p.n
    then if k % 2 == 0 then KernelLow(p.b[k / 2][j]) else High(p.b[k / 2][j])
    else 0
  }

  function KernelTerms(p: Problem, i: int, j: int): int -> real
    requires Valid(p)
  {
    k => p.a(i, k) * Interleaved(p, k, j) as real
  }

  function ReferenceTerms(p: Problem, i: int, j: int): int -> real
    requires Valid(p)
  {
    var b := Unpack(p.b, p.half, p.n);
    k => if 0 <= k < 2 * p.half && 0 <= j < p.n then p.a(i, k) * b[k][j] as real else 0.0
  }

  /** reference_matmul_bf16_int4. */
  function Reference(p: Problem, i: int, j: int): real
    requires Valid(p)
  {
    Sum(ReferenceTerms(p, i, j), 0, 2 * p.half)
  }

  lemma KernelTermsAreReference(p: Problem, i: int, j: int)
    requires Valid(p) && 0 <= j < p.n
    ensures Sum(KernelTerms(p, i, j), 0, 2 * p.half) == Reference(p, i, j)
  {
    hide KernelLow, ReferenceLow, High, Sum;
    forall k | 0 <= k < 2 * p.half
      ensures KernelTerms(p, i, j)(k) == ReferenceTerms(p, i, j)(k)
    {
      LowDecodersAgree(p.b[k / 2][j]);
      assert Interleaved(p, k, j) == Unpack(p.b, p.half, p.n)[k][j];
    }
    SumEq(KernelTerms(p, i, j), ReferenceTerms(p, i, j), 0, 2 * p.half);
  }

  /** A packed tile [lo, hi) covers columns [2 lo, 2 hi) of A. */
  method Element(p: Problem, i: int, j: int, block: int) returns (acc: real)
    requires Valid(p) && 0 <= j < p.n && block > 0
    ensures acc == Reference(p, i, j)
  {
    hide KernelTerms, Reference, Sum;
    acc := 0.0;
    var lo := 0;
    SumZero(KernelTerms(p, i, j), 0, 0);
    while lo < p.half
      invariant 0 <= lo <= p.half
      invariant acc == Sum(KernelTerms(p, i, j), 0, 2 * lo)
    {
      var hi := if lo + block < p.half then lo + block else p.half;
      SumSplit(KernelTerms(p, i, j), 0, 2 * lo, 2 * hi);
      acc := acc + Sum(KernelTerms(p, i, j), 2 * lo, 2 * hi);
      lo := hi;
    }
    KernelTermsAreReference(p, i, j);
  }

  /** matmul_bf16_int4. */
  method Kernel(p: Problem, block: int) returns (c: array2<real>)
    requires Valid(p) && block > 0
    ensures c.Length0 == p.m && c.Length1 == p.n
    ensures forall i, j :: 0 <= i < p.m && 0 <= j < p.n ==> c[i, j] == Reference(p, i, j)
  {
    hide *;
    c := new real[p.m, p.n];
    for i := 0 to p.m
      invariant forall x, y :: 0 <= x < i && 0 <= y < p.n ==> c[x, y] == Reference(p, x, y)
    {
      for j := 0 to p.n
        invariant forall x, y :: 0 <= x < p.m && 0 <= y < p.n && (x < i || (x == i && y < j)) ==> c[x, y] == Reference(p, x, y)
      {
        c[i, j] := Element(p, i, j, block);
      }
    }
  }

  /** Packing weights and running the kernel is the product with the weights themselves. */
  lemma PackedProduct(p: Problem, codes: Matrix, i: int, j: int)
    requires Shape(codes, 2 * p.half, p.n) && FourBit(codes) && p.b == Pack(codes, p.half, p.n) && 0 <= j < p.n
    ensures Reference(p, i, j)
         == Sum(k => if 0 <= k < 2 * p.half then p.a(i, k) * codes[k][j] as real else 0.0, 0, 2 * p.half)
  {
    hide Sum, Unpack, Pack;
    UnpackInvertsPack(codes, p.half, p.n);
    SumEq(ReferenceTerms(p, i, j), k => if 0 <= k < 2 * p.half then p.a(i, k) * codes[k][j] as real else 0.0, 0, 2 * p.half);
  }
}
