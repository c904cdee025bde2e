// The block-scaled FP4 products of examples/nvfp4_gemm.py and examples/nvfp4_gemv.py. The
// kernels sum by group tile, byte and nibble with swizzled scale lookups; the references
// unpack, scale and multiply over the flat k index.
module BlockScaled {
  import opened Sums
  import opened Tiling
  import opened Fp4
  import L = ScaleLayout

  /** One output element: 16 * groups products, and one scale factor per group of 16. */
  datatype Operands = Operands(groups: nat, lhs: int -> real, rhs: int -> real, scale: int -> real)

  function FlatTerms(o: Operands): int -> real {
    k => o.lhs(k) * o.rhs(k) * o.scale(k / 16)
  }

  /** Unpack, scale, multiply: the sum over k with scale index k // 16. */
  function Flat(o: Operands): real {
    Sum(FlatTerms(o), 0, 16 * o.groups)
  }

  /** Byte i holds the factors of k = 2i (low nibble) and k = 2i + 1 (high nibble). */
  function Pair(o: Operands, i: int): real {
    o.lhs(2 * i) * o.rhs(2 * i) + o.lhs(2 * i + 1) * o.rhs(2 * i + 1)
  }

  function PairTerms(o: Operands): int -> real {
    i => Pair(o, i) * o.scale(i / 8)
  }

  /** Group g's contribution of its byte b. */
  function ByteTerms(o: Operands, g: int): int -> real {
    b => Pair(o, 8 * g + b) * o.scale(g)
  }

  /** The first `bytes` bytes of group g. */
  function GroupTerms(o: Operands, bytes: nat): int -> real {
    g => Sum(ByteTerms(o, g), 0, bytes)
  }

  lemma {:induction false} SumPairs(f: int -> real, pairs: int -> real, n: nat)
    requires forall i :: 0 <= i < n ==> pairs(i) == f(2 * i) + f(2 * i + 1)
    ensures Sum(f, 0, 2 * n) == Sum(pairs, 0, n)
  {
    if n > 0 {
      SumPairs(f, pairs, n - 1);
      assert Sum(f, 0, 2 * n) == Sum(f, 0, 2 * n - 1) + f(2 * n - 1);
      assert Sum(f, 0, 2 * n - 1) == Sum(f, 0, 2 * n - 2) + f(2 * n - 2);
      assert pairs(n - 1) == f(2 * (n - 1)) + f(2 * (n - 1) + 1);
    }
  }

  lemma Distribute(x: real, y: real, s: real)
    ensures (x + y) * s == x * s + y * s
  {
  }

  /** Summing byte by byte is summing over k. */
  lemma BytesAreFlat(o: Operands)
    ensures Sum(PairTerms(o), 0, 8 * o.groups) == Flat(o)
  {
    forall i | 0 <= i < 8 * o.groups
      ensures PairTerms(o)(i) == FlatTerms(o)(2 * i) + FlatTerms(o)(2 * i + 1)
    {
      assert 2 * i / 16 == i / 8 && (2 * i + 1) / 16 == i / 8;
      Distribute(o.lhs(2 * i) * o.rhs(2 * i), o.lhs(2 * i + 1) * o.rhs(2 * i + 1), o.scale(i / 8));
    }
    SumPairs(FlatTerms(o), PairTerms(o), 8 * o.groups);
  }

  /** Group g covers bytes 8g to 8g + 7. */
  lemma GroupIsTile(o: Operands, g: int)
    ensures GroupTerms(o, 8)(g) == Sum(PairTerms(o), 8 * g, 8 * g + 8)
  {
    hide Sum, Pair;
    forall b | 0 <= b < 8
      ensures ByteTerms(o, g)(b) == PairTerms(o)(b + 8 * g)
    {
      assert (b + 8 * g) / 8 == g;
      assert 8 * g + b == b + 8 * g;
    }
    SumShift(PairTerms(o), ByteTerms(o, g), 0, 8, 8 * g);
  }

  /** Summing group by group, byte by byte, is summing over k. */
  lemma GroupsAreFlat(o: Operands)
    ensures Sum(GroupTerms(o, 8), 0, o.groups) == Flat(o)
  {
    hide Sum, GroupTerms, PairTerms, Flat;
    BytesAreFlat(o);
    assert NumTiles(0, 8 * o.groups, 8) == o.groups;
    forall g | 0 <= g < o.groups
      ensures GroupTerms(o, 8)(g) == Sum(PairTerms(o), TileBegin(0, 8, g), TileEnd(0, 8 * o.groups, 8, g))
    {
      GroupIsTile(o, g);
      assert TileBegin(0, 8, g) == 8 * g && TileEnd(0, 8 * o.groups, 8, g) == 8 * g + 8;
    }
    SumOverTiles(PairTerms(o), GroupTerms(o, 8), 0, 8 * o.groups, 8);
  }

  /** What one iteration of the byte loop adds for group g. */
  function Contribution(o: Operands, byte: int): int -> real {
    g => Pair(o, 8 * g + byte) * o.scale(g)
  }

  lemma NoBytes(o: Operands, lo: int, hi: int)
    ensures Sum(GroupTerms(o, 0), lo, hi) == 0.0
  {
    SumZero(GroupTerms(o, 0), lo, hi);
  }

  lemma NextByte(o: Operands, byte: nat, lo: int, hi: int)
    ensures Sum(GroupTerms(o, byte + 1), lo, hi)
         == Sum(GroupTerms(o, byte), lo, hi) + Sum(Contribution(o, byte), lo, hi)
  {
    hide Pair;
    forall g
      ensures GroupTerms(o, byte + 1)(g) == GroupTerms(o, byte)(g) + Contribution(o, byte)(g)
    {
      assert ByteTerms(o, g)(byte) == Contribution(o, byte)(g);
    }
    SumAdd(GroupTerms(o, byte), Contribution(o, byte), GroupTerms(o, byte + 1), lo, hi);
  }

  /** The GEMM loops: for each group tile and each byte, a sum over the groups of the tile. */
  method GemmElement(o: Operands, blockK: nat) returns (acc: real)
    requires blockK > 0
    ensures acc == Flat(o)
  {
    hide *;
    acc := 0.0;
    var lo := 0;
    SumZero(GroupTerms(o, 8), 0, 0);
    while lo < o.groups
      invariant 0 <= lo <= o.groups
      invariant acc == Sum(GroupTerms(o, 8), 0, lo)
    {
      var hi := if lo + blockK < o.groups then lo + blockK else o.groups;
      var byte := 0;
      NoBytes(o, lo, hi);
      while byte < 8
        invariant 0 <= byte <= 8
        invariant acc == Sum(GroupTerms(o, 8), 0, lo) + Sum(GroupTerms(o, byte), lo, hi)
      {
        NextByte(o, byte, lo, hi);
        acc := acc + Sum(Contribution(o, byte), lo, hi);
        byte := byte + 1;
      }
      SumSplit(GroupTerms(o, 8), 0, lo, hi);
      lo := hi;
    }
    GroupsAreFlat(o);
  }

  lemma ScaleOfBytes(o: Operands, g: int, byte: nat, contrib: real)
    requires contrib * o.scale(g) == Sum(ByteTerms(o, g), 0, byte)
    ensures (contrib + Pair(o, 8 * g + byte)) * o.scale(g) == Sum(ByteTerms(o, g), 0, byte + 1)
  {
    hide Pair;
    assert ByteTerms(o, g)(byte) == Pair(o, 8 * g + byte) * o.scale(g);
    Distribute(contrib, Pair(o, 8 * g + byte), o.scale(g));
  }

  /** One group of the GEMV loops: products first, byte by byte, then the scale once. */
  method GroupContribution(o: Operands, g: int) returns (contrib: real)
    ensures contrib * o.scale(g) == GroupTerms(o, 8)(g)
  {
    hide Sum, ByteTerms;
    contrib := 0.0;
    var byte := 0;
    SumZero(ByteTerms(o, g), 0, 0);
    while byte < 8
      invariant 0 <= byte <= 8
      invariant contrib * o.scale(g) == Sum(ByteTerms(o, g), 0, byte)
    {
      var i := 8 * g + byte;
      var lo, hi := o.lhs(2 * i) * o.rhs(2 * i), o.lhs(2 * i + 1) * o.rhs(2 * i + 1);
      ScaleOfBytes(o, g, byte, contrib);
      contrib := contrib + lo + hi;
      byte := byte + 1;
    }
  }

  /** The 16 products of group g. */
  function Lanes(o: Operands, g: int): int -> real {
    i => o.lhs(16 * g + i) * o.rhs(16 * g + i)
  }

  function Pairs(o: Operands, g: int): int -> real {
    b => Pair(o, 8 * g + b)
  }

  lemma TwoLanes(o: Operands, g: int, b: int)
    ensures Pair(o, 8 * g + b) == Lanes(o, g)(2 * b) + Lanes(o, g)(2 * b + 1)
  {
    var k := 16 * g + 2 * b;
    assert 2 * (8 * g + b) == k && 2 * (8 * g + b) + 1 == k + 1;
    assert Lanes(o, g)(2 * b) == o.lhs(k) * o.rhs(k);
    assert 16 * g + (2 * b + 1) == k + 1;
    assert Lanes(o, g)(2 * b + 1) == o.lhs(k + 1) * o.rhs(k + 1);
  }

  lemma LanesAreGroup(o: Operands, g: int)
    ensures Sum(Lanes(o, g), 0, 16) * o.scale(g) == GroupTerms(o, 8)(g)
  {
    hide Sum;
    forall b | 0 <= b < 8
      ensures Pairs(o, g)(b) == Lanes(o, g)(2 * b) + Lanes(o, g)(2 * b + 1)
    {
      TwoLanes(o, g, b);
    }
    SumPairs(Lanes(o, g), Pairs(o, g), 8);
    SumScale(Pairs(o, g), ByteTerms(o, g), o.scale(g), 0, 8);
  }

  lemma NextTerm(f: int -> real, n: nat)
    ensures Sum(f, 0, n + 1) == Sum(f, 0, n) + f(n)
  {
  }

  /** One group of the GEMV bodies that load 16 values at a time. */
  method LaneContribution(o: Operands, g: int) returns (contrib: real)
    ensures contrib * o.scale(g) == GroupTerms(o, 8)(g)
  {
    hide Sum, GroupTerms;
    contrib := 0.0;
    SumZero(Lanes(o, g), 0, 0);
    for i := 0 to 16
      invariant contrib == Sum(Lanes(o, g), 0, i)
    {
      NextTerm(Lanes(o, g), i);
      contrib := contrib + o.lhs(16 * g + i) * o.rhs(16 * g + i);
    }
    LanesAreGroup(o, g);
  }

  /** The GEMV loops over group tiles; `lanes` selects the bodies that load 16 values at a time. */
  method GemvElement(o: Operands, blockK: nat, lanes: bool) returns (acc: real)
    requires blockK > 0
    ensures acc == Flat(o)
  {
    hide *;
    acc := 0.0;
    var lo := 0;
    SumZero(GroupTerms(o, 8), 0, 0);
    while lo < o.groups
      invariant 0 <= lo <= o.groups
      invariant acc == Sum(GroupTerms(o, 8), 0, lo)
    {
      var hi := if lo + blockK < o.groups then lo + blockK else o.groups;
      var g := lo;
      while g < hi
        invariant lo <= g <= hi
        invariant acc == Sum(GroupTerms(o, 8), 0, g)
      {
        var contrib;
        if lanes {
          contrib := LaneContribution(o, g);
        } else {
          contrib := GroupContribution(o, g);
        }
        NextTerm(GroupTerms(o, 8), g);
        acc := acc + contrib * o.scale(g);
        g := g + 1;
      }
      lo := hi;
    }
    GroupsAreFlat(o);
  }

  // The operands of the kernels.

  /** float4_e2m1fn_x2_to_float32 and the table lookup: nibble k % 2 of byte k // 2. */
  function Nibble(b: bv8, k: int): Code {
    (if k % 2 == 0 then LowNibble(b) else HighNibble(b)) as int
  }

  function InRow(row: Row, k: int): real {
    if 0 <= k < 2 * |row| then Decode(Nibble(row[k / 2], k)) else 0.0
  }

  function InCol(m: Bytes, k: int, col: int): real {
    if 0 <= k < 2 * |m| && 0 <= col < |m[k / 2]| then Decode(Nibble(m[k / 2][col], k)) else 0.0
  }

  function ScaleAt(flat: seq<real>, row: int, group: int, groups: nat): real {
    var offset := L.Offset(row, group, groups);
    if 0 <= offset < |flat| then flat[offset] else 0.0
  }

  /**
   * One operand: plain values by (row, k), bytes [count, K // 2] or bytes [K // 2, count]. Packed
   * operands come with the swizzled scales of their rows (their columns in the last case).
   */
  datatype Side =
    | Plain(count: nat, value: (int, int) -> real)
    | PackedRows(count: nat, bytes: Bytes, scale: seq<real>)
    | PackedCols(count: nat, bytes: Bytes, scale: seq<real>)

  predicate ValidSide(s: Side, groups: nat) {
    match s
    case Plain(_, _) => true
    case PackedRows(count, bytes, scale) => IsBytes(bytes, count, 8 * groups) && |scale| == L.Numel(count, groups)
    case PackedCols(count, bytes, scale) => IsBytes(bytes, 8 * groups, count) && |scale| == L.Numel(count, groups)
  }

  /** W4A4 has packed rows on the left and packed columns on the right, W4A16 plain rows on the left. */
  datatype Problem = Problem(groups: nat, left: Side, right: Side, alpha: real)

  predicate Valid(p: Problem) {
    ValidSide(p.left, p.groups) && ValidSide(p.right, p.groups)
  }

  /** Factor k of a row, as the kernels decode it. */
  function Value(s: Side, row: int, k: int): real {
    match s
    case Plain(_, value) => value(row, k)
    case PackedRows(_, bytes, _) => if 0 <= row < |bytes| then InRow(bytes[row], k) else 0.0
    case PackedCols(_, bytes, _) => InCol(bytes, k, row)
  }

  /** Scales by (row, group). */
  type Scales = (int, int) -> real

  /** What the kernels and references look up; plain values are not scaled. */
  function Stored(s: Side, groups: nat): Scales {
    (row, group) => if s.Plain? then 1.0 else ScaleAt(s.scale, row, group, groups)
  }

  function Element(p: Problem, i: int, j: int): Operands {
    Operands(p.groups, k => Value(p.left, i, k), k => Value(p.right, j, k),
             g => Stored(p.left, p.groups)(i, g) * Stored(p.right, p.groups)(j, g))
  }

  // The GEMM kernels and their references.

  /** unpack_and_dequantize_fp4: unpack the whole matrix, then look each code up. */
  function Dequantized(codes: Bytes, i: int, j: int): real {
    if 0 <= i < |codes| && 0 <= j < |codes[i]| && codes[i][j] < 16 then Decode(codes[i][j] as int) else 0.0
  }

  /** The dequantised operand times the scale of group k // 16. */
  function Scaled(s: Side, groups: nat, scales: Scales, row: int): int -> real
    requires ValidSide(s, groups)
  {
    match s
    case Plain(_, value) => k => value(row, k)
    case PackedRows(count, bytes, _) =>
      var codes := UnpackLast(bytes, count, 8 * groups);
      k => Dequantized(codes, row, k) * scales(row, k / 16)
    case PackedCols(count, bytes, _) =>
      var codes := Unpack(bytes, 8 * groups, count);
      k => Dequantized(codes, k, row) * scales(row, k / 16)
  }

  function GemmTerms(p: Problem, left: Scales, right: Scales, i: int, j: int): int -> real
    requires Valid(p)
  {
    k => Scaled(p.left, p.groups, left, i)(k) * Scaled(p.right, p.groups, right, j)(k)
  }

  /** reference_nvfp4_w4a4_matmul and reference_nvfp4_w4a16_matmul: unpack, scale, multiply. */
  function ReferenceGemm(p: Problem, i: int, j: int): real
    requires Valid(p)
  {
    Sum(GemmTerms(p, Stored(p.left, p.groups), Stored(p.right, p.groups), i, j), 0, 16 * p.groups) * p.alpha
  }

  lemma UnpackedRow(a: Bytes, rows: nat, half: nat, i: int, k: int)
    requires IsBytes(a, rows, half) && 0 <= i < rows && 0 <= k < 2 * half
    ensures Dequantized(UnpackLast(a, rows, half), i, k) == InRow(a[i], k)
  {
    hide LowNibble, HighNibble;
    BytesRoundTrip(0, 0, a[i][k / 2]);
  }

  lemma UnpackedCol(b: Bytes, half: nat, cols: nat, k: int, j: int)
    requires IsBytes(b, half, cols) && 0 <= j < cols && 0 <= k < 2 * half
    ensures Dequantized(Unpack(b, half, cols), k, j) == InCol(b, k, j)
  {
    hide LowNibble, HighNibble;
    BytesRoundTrip(0, 0, b[k / 2][j]);
  }

  /** An operand of the reference is the decoded value times the stored scale. */
  lemma ScaledIsValue(s: Side, groups: nat, row: int, k: int)
    requires ValidSide(s, groups) && 0 <= row < s.count && 0 <= k < 16 * groups
    ensures Scaled(s, groups, Stored(s, groups), row)(k) == Value(s, row, k) * Stored(s, groups)(row, k / 16)
  {
    hide InRow, InCol, Dequantized, ScaleAt, Unpack, UnpackLast;
    match s
    case Plain(_, _) =>
    case PackedRows(count, bytes, _) => UnpackedRow(bytes, count, 8 * groups, row, k);
    case PackedCols(count, bytes, _) => UnpackedCol(bytes, 8 * groups, count, k, row);
  }

  lemma Regroup(a: real, s: real, b: real, t: real)
    ensures (a * s) * (b * t) == a * b * (s * t)
  {
    assert (a * s) * (b * t) == a * (s * (b * t)) == a * (b * (s * t));
  }

  lemma GemmTerm(p: Problem, i: int, j: int, k: int)
    requires Valid(p) && 0 <= i < p.left.count && 0 <= j < p.right.count && 0 <= k < 16 * p.groups
    ensures FlatTerms(Element(p, i, j))(k)
         == GemmTerms(p, Stored(p.left, p.groups), Stored(p.right, p.groups), i, j)(k)
  {
    hide Value, Scaled, Stored;
    ScaledIsValue(p.left, p.groups, i, k);
    ScaledIsValue(p.right, p.groups, j, k);
    Regroup(Value(p.left, i, k), Stored(p.left, p.groups)(i, k / 16),
            Value(p.right, j, k), Stored(p.right, p.groups)(j, k / 16));
  }

  /** The sum over nibbles is the sum over the unpacked, decoded and scaled matrices. */
  lemma FlatIsReferenceGemm(p: Problem, i: int, j: int)
    requires Valid(p) && 0 <= i < p.left.count && 0 <= j < p.right.count
    ensures Flat(Element(p, i, j)) * p.alpha == ReferenceGemm(p, i, j)
  {
    hide Sum, FlatTerms, GemmTerms, Valid, Value, Stored;
    var o, terms := Element(p, i, j), GemmTerms(p, Stored(p.left, p.groups), Stored(p.right, p.groups), i, j);
    forall k | 0 <= k < 16 * p.groups
      ensures FlatTerms(o)(k) == terms(k)
    {
      GemmTerm(p, i, j, k);
    }
    SumEq(FlatTerms(o), terms, 0, 16 * p.groups);
  }

  /** _nvfp4_w4a4_matmul_kernel and _nvfp4_matmul_single_pass_kernel over the whole output. */
  method Gemm(p: Problem, blockK: nat) returns (out: array2<real>)
    requires Valid(p) && blockK > 0
    ensures out.Length0 == p.left.count && out.Length1 == p.right.count
    ensures forall i, j :: 0 <= i < out.Length0 && 0 <= j < out.Length1 ==> out[i, j] == ReferenceGemm(p, i, j)
  {
    hide *;
    out := new real[p.left.count, p.right.count];
    for i := 0 to out.Length0
      invariant forall x, y :: 0 <= x < i && 0 <= y < out.Length1 ==> out[x, y] == ReferenceGemm(p, x, y)
    {
      for j := 0 to out.Length1
        invariant forall x, y :: 0 <= x < i && 0 <= y < out.Length1 ==> out[x, y] == ReferenceGemm(p, x, y)
        invariant forall y :: 0 <= y < j ==> out[i, y] == ReferenceGemm(p, i, y)
      {
        var acc := GemmElement(Element(p, i, j), blockK);
        FlatIsReferenceGemm(p, i, j);
        out[i, j] := acc * p.alpha;
      }
    }
  }

  // The GEMV kernels and their references.

  function ByteOf(s: Side, row: int, i: int): bv8
    requires !s.Plain?
  {
    if s.PackedRows? then if 0 <= row < |s.bytes| && 0 <= i < |s.bytes[row]| then s.bytes[row][i] else 0
    else if 0 <= i < |s.bytes| && 0 <= row < |s.bytes[i]| then s.bytes[i][row] else 0
  }

  /** Decoded by arithmetic: the low and high values of byte i, or the plain values 2i and 2i + 1. */
  function LowValue(s: Side, row: int, i: int): real {
    if s.Plain? then s.value(row, 2 * i) else DequantE2m1(LowNibble(ByteOf(s, row, i)) as int)
  }

  function HighValue(s: Side, row: int, i: int): real {
    if s.Plain? then s.value(row, 2 * i + 1) else DequantE2m1(HighNibble(ByteOf(s, row, i)) as int)
  }

  /** (weight_lo * x_lo + weight_hi * x_hi) * scale, over bytes, with scale index i // 8. */
  function GemvTerms(p: Problem, left: Scales, right: Scales, row: int): int -> real {
    i => (LowValue(p.left, row, i) * LowValue(p.right, 0, i) + HighValue(p.left, row, i) * HighValue(p.right, 0, i))
         * (left(row, i / 8) * right(0, i / 8))
  }

  /** reference_nvfp4_gemv_fp4in and reference_nvfp4_gemv_bf16in. */
  function ReferenceGemv(p: Problem, row: int): real {
    Sum(GemvTerms(p, Stored(p.left, p.groups), Stored(p.right, p.groups), row), 0, 8 * p.groups) * p.alpha
  }

  /** The table and the arithmetic decoder agree on both halves of a byte. */
  lemma NibblesOfByte(s: Side, groups: nat, row: int, i: int)
    requires ValidSide(s, groups) && 0 <= row < s.count && 0 <= i < 8 * groups
    ensures Value(s, row, 2 * i) == LowValue(s, row, i) && Value(s, row, 2 * i + 1) == HighValue(s, row, i)
  {
    hide LowNibble, HighNibble, Decode, DequantE2m1, L.Numel;
    assert 2 * i / 2 == i && (2 * i + 1) / 2 == i;
    assert 2 * i % 2 == 0 && (2 * i + 1) % 2 == 1;
    if !s.Plain? {
      var b := ByteOf(s, row, i);
      BytesRoundTrip(0, 0, b);
      DequantIsLut(LowNibble(b) as int);
      DequantIsLut(HighNibble(b) as int);
    }
  }

  lemma GemvTerm(p: Problem, row: int, i: int)
    requires Valid(p) && 0 <= row < p.left.count && p.right.count == 1 && 0 <= i < 8 * p.groups
    ensures PairTerms(Element(p, row, 0))(i)
         == GemvTerms(p, Stored(p.left, p.groups), Stored(p.right, p.groups), row)(i)
  {
    hide Value, LowValue, HighValue, Stored;
    NibblesOfByte(p.left, p.groups, row, i);
    NibblesOfByte(p.right, p.groups, 0, i);
    assert Pair(Element(p, row, 0), i)
        == LowValue(p.left, row, i) * LowValue(p.right, 0, i) + HighValue(p.left, row, i) * HighValue(p.right, 0, i);
  }

  /** The sum by table is the byte sum by arithmetic decoding. */
  lemma FlatIsReferenceGemv(p: Problem, row: int)
    requires Valid(p) && 0 <= row < p.left.count && p.right.count == 1
    ensures Flat(Element(p, row, 0)) * p.alpha == ReferenceGemv(p, row)
  {
    hide Sum, PairTerms, GemvTerms, Flat, Valid, Value, Stored;
    var o, terms := Element(p, row, 0), GemvTerms(p, Stored(p.left, p.groups), Stored(p.right, p.groups), row);
    BytesAreFlat(o);
    forall i | 0 <= i < 8 * p.groups
      ensures PairTerms(o)(i) == terms(i)
    {
      GemvTerm(p, row, i);
    }
    SumEq(PairTerms(o), terms, 0, 8 * p.groups);
  }

  /** Both CuTe bodies, and with `lanes` both Triton bodies; the vector is row 0 on the right. */
  method Gemv(p: Problem, blockK: nat, lanes: bool) returns (out: array<real>)
    requires Valid(p) && p.right.count == 1 && blockK > 0
    ensures out.Length == p.left.count
    ensures forall i :: 0 <= i < out.Length ==> out[i] == ReferenceGemv(p, i)
  {
    hide *;
    out := new real[p.left.count];
    for i := 0 to out.Length
      invariant forall x :: 0 <= x < i ==> out[x] == ReferenceGemv(p, x)
    {
      var acc := GemvElement(Element(p, i, 0), blockK, lanes);
      FlatIsReferenceGemv(p, i);
      out[i] := acc * p.alpha;
    }
  }

  // Logical scales.

  /** With swizzled logical scales every lookup is in range and is the logical scale of the row and group. */
  lemma LookupIsLogical(scales: L.Matrix, rows: nat, groups: nat, row: int, group: int)
    requires L.Shape(scales, rows, groups) && 0 <= row < rows && 0 <= group < groups
    ensures 0 <= L.Offset(row, group, groups) < |L.Swizzled(scales, rows, groups)|
    ensures ScaleAt(L.Swizzled(scales, rows, groups), row, group, groups) == scales[row][group]
  {
    L.LogicalIsInGrid(row, group, rows, groups);
    L.OffsetIsInjective(row, group, rows, groups);
  }

  /** The operand's scales are the swizzled form of a logical matrix. */
  ghost predicate HoldsScales(s: Side, groups: nat, scales: L.Matrix) {
    !s.Plain? ==> L.Shape(scales, s.count, groups) && s.scale == L.Swizzled(scales, s.count, groups)
  }

  function Logical(s: Side, scales: L.Matrix): Scales {
    (row, group) => if s.Plain? then 1.0 else if 0 <= row < |scales| && 0 <= group < |scales[row]| then scales[row][group] else 0.0
  }

  lemma StoredIsLogical(s: Side, groups: nat, scales: L.Matrix, row: int, group: int)
    requires HoldsScales(s, groups, scales) && 0 <= row < s.count && 0 <= group < groups
    ensures Stored(s, groups)(row, group) == Logical(s, scales)(row, group)
  {
    hide L.Swizzled, ScaleAt;
    if !s.Plain? {
      LookupIsLogical(scales, s.count, groups, row, group);
    }
  }

  lemma ScaledByLogical(s: Side, groups: nat, scales: L.Matrix, row: int, k: int)
    requires ValidSide(s, groups) && HoldsScales(s, groups, scales) && 0 <= row < s.count && 0 <= k < 16 * groups
    ensures Scaled(s, groups, Stored(s, groups), row)(k) == Scaled(s, groups, Logical(s, scales), row)(k)
  {
    hide Dequantized, Unpack, UnpackLast, Stored, Logical, HoldsScales;
    StoredIsLogical(s, groups, scales, row, k / 16);
  }

  /** Swizzling the scale matrices first leaves the product with the logical scales unchanged. */
  lemma GemmUsesLogicalScales(p: Problem, left: L.Matrix, right: L.Matrix, i: int, j: int)
    requires Valid(p) && 0 <= i < p.left.count && 0 <= j < p.right.count
    requires HoldsScales(p.left, p.groups, left) && HoldsScales(p.right, p.groups, right)
    ensures ReferenceGemm(p, i, j)
         == Sum(GemmTerms(p, Logical(p.left, left), Logical(p.right, right), i, j), 0, 16 * p.groups) * p.alpha
  {
    hide Sum, Scaled, Stored, Logical, HoldsScales;
    var stored := GemmTerms(p, Stored(p.left, p.groups), Stored(p.right, p.groups), i, j);
    var logical := GemmTerms(p, Logical(p.left, left), Logical(p.right, right), i, j);
    forall k | 0 <= k < 16 * p.groups
      ensures stored(k) == logical(k)
    {
      ScaledByLogical(p.left, p.groups, left, i, k);
      ScaledByLogical(p.right, p.groups, right, j, k);
    }
    SumEq(stored, logical, 0, 16 * p.groups);
  }

  lemma GemvUsesLogicalScales(p: Problem, left: L.Matrix, right: L.Matrix, row: int)
    requires Valid(p) && 0 <= row < p.left.count && p.right.count == 1
    requires HoldsScales(p.left, p.groups, left) && HoldsScales(p.right, p.groups, right)
    ensures ReferenceGemv(p, row)
         == Sum(GemvTerms(p, Logical(p.left, left), Logical(p.right, right), row), 0, 8 * p.groups) * p.alpha
  {
    hide Sum, LowValue, HighValue, Stored, Logical, HoldsScales;
    var stored := GemvTerms(p, Stored(p.left, p.groups), Stored(p.right, p.groups), row);
    var logical := GemvTerms(p, Logical(p.left, left), Logical(p.right, right), row);
    forall i | 0 <= i < 8 * p.groups
      ensures stored(i) == logical(i)
    {
      StoredIsLogical(p.left, p.groups, left, row, i / 8);
      StoredIsLogical(p.right, p.groups, right, 0, i / 8);
    }
    SumEq(stored, logical, 0, 8 * p.groups);
  }
}
