// FP4 E2M1 values (section 5.3.3 of the OCP Microscaling Formats (MX) Specification v1.0),
// their quantiser and their packing two to a byte, as in examples/nvfp4_gemm.py; the
// arithmetic decoder of examples/nvfp4_gemv.py.
module Fp4 {
  /** FP4_E2M1_LUT. Code 8 (negative zero) is listed as 0.0. */
  const LUT: seq<real> := [0.0, 0.5, 1.0, 1.5, 2.0, 3.0, 4.0, 6.0, 0.0, -0.5, -1.0, -1.5, -2.0, -3.0, -4.0, -6.0]

  type Code = c: int | 0 <= c < 16

  function Decode(c: Code): real {
    LUT[c]
  }

  function Abs(x: real): real {
    if x < 0.0 then -x else x
  }

  const BOUNDARIES: seq<real> := [0.25, 0.75, 1.25, 1.75, 2.5, 3.5, 5.0]

  /** torch.bucketize with right=False: how many boundaries lie strictly below x. */
  function Bucketize(x: real, boundaries: seq<real>): (n: nat)
    ensures n <= |boundaries|
  {
    if boundaries == [] then 0
    else Bucketize(x, boundaries[1..]) + if boundaries[0] < x then 1 else 0
  }

  /** quantize_fp4_e2m1 on one element; `mag_idx | (sign << 3)` adds bit 3. */
  function Quantize(x: real): Code {
    var absX := if Abs(x) > 6.0 then 6.0 else Abs(x);
    Bucketize(absX, BOUNDARIES) + if x < 0.0 then 8 else 0
  }

  lemma BucketizeStep(x: real, b: real, rest: seq<real>)
    ensures Bucketize(x, [b] + rest) == Bucketize(x, rest) + (if b < x then 1 else 0)
    ensures Bucketize(x, []) == 0
  {
    assert ([b] + rest)[1..] == rest;
  }

  lemma BucketizeSeven(x: real)
    ensures Bucketize(x, BOUNDARIES)
         == if x <= 0.25 then 0 else if x <= 0.75 then 1 else if x <= 1.25 then 2 else if x <= 1.75 then 3
            else if x <= 2.5 then 4 else if x <= 3.5 then 5 else if x <= 5.0 then 6 else 7
  {
    BucketizeStep(x, 5.0, []);
    BucketizeStep(x, 3.5, [5.0]);
    BucketizeStep(x, 2.5, [3.5, 5.0]);
    BucketizeStep(x, 1.75, [2.5, 3.5, 5.0]);
    BucketizeStep(x, 1.25, [1.75, 2.5, 3.5, 5.0]);
    BucketizeStep(x, 0.75, [1.25, 1.75, 2.5, 3.5, 5.0]);
    BucketizeStep(x, 0.25, [0.75, 1.25, 1.75, 2.5, 3.5, 5.0]);
    hide Bucketize;
    assert [5.0] + [] == [5.0];
    assert [3.5] + [5.0] == [3.5, 5.0];
    assert [2.5] + [3.5, 5.0] == [2.5, 3.5, 5.0];
    assert [1.75] + [2.5, 3.5, 5.0] == [1.75, 2.5, 3.5, 5.0];
    assert [1.25] + [1.75, 2.5, 3.5, 5.0] == [1.25, 1.75, 2.5, 3.5, 5.0];
    assert [0.75] + [1.25, 1.75, 2.5, 3.5, 5.0] == [0.75, 1.25, 1.75, 2.5, 3.5, 5.0];
    assert [0.25] + [0.75, 1.25, 1.75, 2.5, 3.5, 5.0] == BOUNDARIES;
  }

  /**
   * Every real, however large, is quantised to a nearest representable value, and a tie goes
   * to the smaller magnitude.
   */
  lemma QuantizeIsNearest(x: real, c: Code)
    ensures Abs(x - Decode(Quantize(x))) <= Abs(x - Decode(c))
    ensures Abs(x - Decode(Quantize(x))) == Abs(x - Decode(c)) ==> Abs(Decode(Quantize(x))) <= Abs(Decode(c))
  {
    BucketizeSeven(if Abs(x) > 6.0 then 6.0 else Abs(x));
  }

  /** Quantising a decoded code gives the code back, except that negative zero becomes zero. */
  lemma QuantizeInvertsDecode(c: Code)
    ensures Quantize(Decode(c)) == if c == 8 then 0 else c
  {
    BucketizeSeven(Abs(Decode(c)));
  }

  /** _dequant_e2m1: decoding by arithmetic on the sign bit and the low three bits. */
  function DequantE2m1(nibble: Code): real {
    var sign := (nibble / 8 % 2) as real;
    var u := (nibble % 8) as real;
    var absVal := if u < 4.0 then u * 0.5 else if u < 6.0 then u - 2.0 else u * 2.0 - 8.0;
    absVal * (1.0 - 2.0 * sign)
  }

  lemma DequantIsLut(c: Code)
    ensures DequantE2m1(c) == Decode(c)
  {
    if c < 8 {
      assert c / 8 == 0;
    } else {
      assert c / 8 == 1 && c % 8 == c - 8;
    }
  }

  // Packing.

  /** (lo & 0xF) | (hi << 4), in uint8. */
  function PackByte(lo: bv8, hi: bv8): bv8 {
    (lo & 0xF) | (hi << 4)
  }

  function LowNibble(b: bv8): bv8 {
    b & 0xF
  }

  function HighNibble(b: bv8): bv8 {
    (b >> 4) & 0xF
  }

  lemma BytesRoundTrip(lo: bv8, hi: bv8, b: bv8)
    ensures lo < 16 && hi < 16 ==> LowNibble(PackByte(lo, hi)) == lo && HighNibble(PackByte(lo, hi)) == hi
    ensures PackByte(LowNibble(b), HighNibble(b)) == b
    ensures LowNibble(b) < 16 && HighNibble(b) < 16
  {
  }

  type Row = seq<bv8>
  type Bytes = seq<Row>

  predicate IsCodes(m: Bytes, rows: nat, cols: nat) {
    && |m| == rows
    && (forall i :: 0 <= i < rows ==> |m[i]| == cols)
    && (forall i, j :: 0 <= i < rows && 0 <= j < cols ==> m[i][j] < 16)
  }

  predicate IsBytes(m: Bytes, rows: nat, cols: nat) {
    |m| == rows && forall i :: 0 <= i < rows ==> |m[i]| == cols
  }

  /** pack_fp4: rows 2i and 2i + 1 share a byte. */
  function Pack(codes: Bytes, half: nat, cols: nat): (packed: Bytes)
    requires IsBytes(codes, 2 * half, cols)
    ensures IsBytes(packed, half, cols)
  {
    seq(half, i requires 0 <= i < half => seq(cols, j requires 0 <= j < cols => PackByte(codes[2 * i][j], codes[2 * i + 1][j])))
  }

  /** The nibbles unpack_and_dequantize_fp4 stacks along dim 0, before the table lookup. */
  function Unpack(packed: Bytes, half: nat, cols: nat): (codes: Bytes)
    requires IsBytes(packed, half, cols)
    ensures IsBytes(codes, 2 * half, cols)
  {
    seq(2 * half, i requires 0 <= i < 2 * half => seq(cols, j requires 0 <= j < cols =>
      if i % 2 == 0 then LowNibble(packed[i / 2][j]) else HighNibble(packed[i / 2][j])))
  }

  /** pack_fp4_last_dim: columns 2j and 2j + 1 share a byte. */
  function PackLast(codes: Bytes, rows: nat, half: nat): (packed: Bytes)
    requires IsBytes(codes, rows, 2 * half)
    ensures IsBytes(packed, rows, half)
  {
    seq(rows, i requires 0 <= i < rows => seq(half, j requires 0 <= j < half => PackByte(codes[i][2 * j], codes[i][2 * j + 1])))
  }

  function UnpackLast(packed: Bytes, rows: nat, half: nat): (codes: Bytes)
    requires IsBytes(packed, rows, half)
    ensures IsBytes(codes, rows, 2 * half)
  {
    seq(rows, i requires 0 <= i < rows => seq(2 * half, j requires 0 <= j < 2 * half =>
      if j % 2 == 0 then LowNibble(packed[i][j / 2]) else HighNibble(packed[i][j / 2])))
  }

  lemma EvenOdd(i: int)
    ensures i == 2 * (i / 2) + i % 2
  {
  }

  /** Whole matrices survive packing along dim 0. */
  lemma UnpackInvertsPack(codes: Bytes, half: nat, cols: nat)
    requires IsCodes(codes, 2 * half, cols)
    ensures Unpack(Pack(codes, half, cols), half, cols) == codes
  {
    hide PackByte, LowNibble, HighNibble;
    var packed := Pack(codes, half, cols);
    var back := Unpack(packed, half, cols);
    forall i | 0 <= i < 2 * half
      ensures back[i] == codes[i]
    {
      EvenOdd(i);
      forall j | 0 <= j < cols
        ensures back[i][j] == codes[i][j]
      {
        BytesRoundTrip(codes[2 * (i / 2)][j], codes[2 * (i / 2) + 1][j], 0);
      }
    }
  }

  /** Every packed matrix is the packing of its codes. */
  lemma PackInvertsUnpack(packed: Bytes, half: nat, cols: nat)
    requires IsBytes(packed, half, cols)
    ensures IsCodes(Unpack(packed, half, cols), 2 * half, cols)
    ensures Pack(Unpack(packed, half, cols), half, cols) == packed
  {
    hide PackByte, LowNibble, HighNibble;
    var codes := Unpack(packed, half, cols);
    var again := Pack(codes, half, cols);
    forall i, j | 0 <= i < 2 * half && 0 <= j < cols
      ensures codes[i][j] < 16
    {
      EvenOdd(i);
      BytesRoundTrip(0, 0, packed[i / 2][j]);
    }
    forall i | 0 <= i < half
      ensures again[i] == packed[i]
    {
      forall j | 0 <= j < cols
        ensures again[i][j] == packed[i][j]
      {
        EvenOdd(2 * i + 1);
        BytesRoundTrip(0, 0, packed[i][j]);
      }
    }
  }

  /** The same along the last dim. */
  lemma UnpackLastInvertsPackLast(codes: Bytes, rows: nat, half: nat)
    requires IsCodes(codes, rows, 2 * half)
    ensures UnpackLast(PackLast(codes, rows, half), rows, half) == codes
  {
    hide PackByte, LowNibble, HighNibble;
    var packed := PackLast(codes, rows, half);
    var back := UnpackLast(packed, rows, half);
    forall i | 0 <= i < rows
      ensures back[i] == codes[i]
    {
      forall j | 0 <= j < 2 * half
        ensures back[i][j] == codes[i][j]
      {
        EvenOdd(j);
        BytesRoundTrip(codes[i][2 * (j / 2)], codes[i][2 * (j / 2) + 1], 0);
      }
    }
  }

  lemma PackLastInvertsUnpackLast(packed: Bytes, rows: nat, half: nat)
    requires IsBytes(packed, rows, half)
    ensures IsCodes(UnpackLast(packed, rows, half), rows, 2 * half)
    ensures PackLast(UnpackLast(packed, rows, half), rows, half) == packed
  {
    hide PackByte, LowNibble, HighNibble;
    var codes := UnpackLast(packed, rows, half);
    var again := PackLast(codes, rows, half);
    forall i, j | 0 <= i < rows && 0 <= j < 2 * half
      ensures codes[i][j] < 16
    {
      EvenOdd(j);
      BytesRoundTrip(0, 0, packed[i][j / 2]);
    }
    forall i | 0 <= i < rows
      ensures again[i] == packed[i]
    {
      forall j | 0 <= j < half
        ensures again[i][j] == packed[i][j]
      {
        EvenOdd(2 * j + 1);
        BytesRoundTrip(0, 0, packed[i][j]);
      }
    }
  }
}
