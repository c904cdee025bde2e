// Integer helpers of helion/_utils.py and the ranges produced by hl.tile.
module Tiling {
  import opened Sums

  /** Python floors `//`; for a positive divisor that is Dafny's `/`. */
  function Cdiv(a: int, b: int): int
    requires b > 0
  {
    (a + b - 1) / b
  }

  function BitLength(n: nat): nat {
    if n == 0 then 0 else 1 + BitLength(n / 2)
  }

  /** `1 << e`. */
  function Pow2(e: nat): (p: int)
    ensures p >= 1
  {
    if e == 0 then 1 else 2 * Pow2(e - 1)
  }

  function NextPowerOf2(n: int): int {
    if n <= 0 then 1 else Pow2(BitLength(n - 1))
  }

  function PrevPowerOf2(n: int): int {
    if n <= 1 then 1 else Pow2(BitLength(n) - 1)
  }

  lemma CdivCovers(a: int, b: int)
    requires b > 0
    ensures (Cdiv(a, b) - 1) * b < a <= Cdiv(a, b) * b
  {
  }

  /** The number of tiles of `hl.tile(begin, end, block_size=block)`. */
  function NumTiles(begin: int, end: int, block: int): (n: nat)
    requires block > 0
  {
    if end <= begin then 0 else CdivCovers(end - begin, block); Cdiv(end - begin, block)
  }

  function TileBegin(begin: int, block: int, id: int): int {
    begin + id * block
  }

  function TileEnd(begin: int, end: int, block: int, id: int): int {
    if begin + (id + 1) * block < end then begin + (id + 1) * block else end
  }

  lemma {:induction false} BitLengthBrackets(n: nat)
    ensures n < Pow2(BitLength(n))
    ensures n > 0 ==> BitLength(n) > 0 && Pow2(BitLength(n) - 1) <= n
  {
    if n > 0 {
      BitLengthBrackets(n / 2);
    }
  }

  lemma {:induction false} Pow2Monotone(d: nat, e: nat)
    requires d <= e
    ensures Pow2(d) <= Pow2(e)
  {
    if d < e {
      Pow2Monotone(d, e - 1);
    }
  }

  lemma Pow2Reflects(d: nat, e: nat)
    requires Pow2(d) < Pow2(e)
    ensures d < e
  {
    if e <= d {
      Pow2Monotone(e, d);
    }
  }

  /** `next_power_of_2` is the smallest power of two that reaches n. */
  lemma NextPowerOf2IsLeast(n: int, e: nat)
    ensures n <= NextPowerOf2(n)
    ensures exists k: nat :: NextPowerOf2(n) == Pow2(k)
    ensures n <= Pow2(e) ==> NextPowerOf2(n) <= Pow2(e)
  {
    assert NextPowerOf2(n) == Pow2(if n <= 0 then 0 else BitLength(n - 1));
    if n > 0 {
      BitLengthBrackets(n - 1);
      if n <= Pow2(e) && BitLength(n - 1) > 0 {
        Pow2Reflects(BitLength(n - 1) - 1, e);
        Pow2Monotone(BitLength(n - 1), e);
      } else if n <= Pow2(e) {
        Pow2Monotone(0, e);
      }
    }
  }

  /** `prev_power_of_2` is the largest power of two within n (1 when there is none). */
  lemma PrevPowerOf2IsGreatest(n: int, e: nat)
    ensures n >= 1 ==> PrevPowerOf2(n) <= n
    ensures n < 1 ==> PrevPowerOf2(n) == 1
    ensures exists k: nat :: PrevPowerOf2(n) == Pow2(k)
    ensures Pow2(e) <= n ==> Pow2(e) <= PrevPowerOf2(n)
  {
    if n <= 1 {
      assert PrevPowerOf2(n) == Pow2(0);
    } else {
      BitLengthBrackets(n);
      assert PrevPowerOf2(n) == Pow2(BitLength(n) - 1);
      if Pow2(e) <= n {
        Pow2Reflects(e, BitLength(n));
        Pow2Monotone(e, BitLength(n) - 1);
      }
    }
  }

  lemma DivMod(x: int, block: int)
    requires block > 0
    ensures x == x / block * block + x % block && 0 <= x % block < block
  {
  }

  lemma MulMonotone(a: int, b: int, c: int)
    requires a <= b && c >= 0
    ensures a * c <= b * c
  {
  }

  /** The quotient of an index is a tile number of any range that holds the index. */
  lemma QuotientBelowCdiv(x: int, y: int, block: int)
    requires block > 0 && x < y
    ensures x / block < Cdiv(y, block)
  {
    hide Cdiv;
    CdivCovers(y, block);
    DivMod(x, block);
    if Cdiv(y, block) <= x / block {
      MulMonotone(Cdiv(y, block), x / block, block);
    }
  }

  lemma NextMultiple(q: int, block: int)
    ensures (q + 1) * block == q * block + block
  {
  }

  lemma QuotientIsNatural(x: int, block: int)
    requires block > 0 && 0 <= x
    ensures 0 <= x / block
  {
  }

  lemma DivBounds(x: int, y: int, block: int)
    requires block > 0
    requires 0 <= x
    ensures (x / block) * block <= x < (x / block + 1) * block
    ensures 0 <= x / block
    ensures x < y ==> x / block < Cdiv(y, block)
  {
    hide Cdiv;
    DivMod(x, block);
    NextMultiple(x / block, block);
    QuotientIsNatural(x, block);
    if x < y {
      QuotientBelowCdiv(x, y, block);
    }
  }

  /** A quotient is determined by the block that holds the dividend. */
  lemma DivUnique(x: int, q: int, block: int)
    requires block > 0
    requires q * block <= x < (q + 1) * block
    ensures x / block == q
  {
    if x / block < q {
      MulMonotone(x / block + 1, q, block);
    } else if x / block > q {
      MulMonotone(q + 1, x / block, block);
    }
  }

  /** Quotient and remainder of a number by its digits. */
  lemma DivModUnique(x: int, q: int, r: int, d: int)
    requires d > 0 && 0 <= r < d
    ensures x == q * d + r <==> x / d == q && x % d == r
  {
    DivMod(x, d);
    if x == q * d + r {
      NextMultiple(q, d);
      DivUnique(x, q, d);
    }
  }

  /** Numbering the cells of a grid row by row is invertible. */
  lemma GridNumber(row: int, col: int, rows: int, cols: int)
    requires 0 <= row < rows && 0 <= col < cols
    ensures 0 <= row * cols + col < rows * cols
    ensures (row * cols + col) / cols == row && (row * cols + col) % cols == col
  {
    MulMonotone(0, row, cols);
    MulMonotone(row + 1, rows, cols);
    NextMultiple(row, cols);
    DivModUnique(row * cols + col, row, col, cols);
  }

  ghost predicate InTile(begin: int, end: int, block: int, id: int, x: int)
    requires block > 0
  {
    0 <= id < NumTiles(begin, end, block) && TileBegin(begin, block, id) <= x < TileEnd(begin, end, block, id)
  }

  /** Every index of the range lies in exactly one tile, and tiles hold nothing else. */
  lemma TilesPartition(begin: int, end: int, block: int, id: int, x: int)
    requires block > 0
    ensures InTile(begin, end, block, id, x) <==> begin <= x < end && id == (x - begin) / block
  {
    if begin <= x < end {
      DivBounds(x - begin, end - begin, block);
      if InTile(begin, end, block, id, x) {
        DivUnique(x - begin, id, block);
      }
    }
    if InTile(begin, end, block, id, x) {
      MulMonotone(0, id, block);
    }
  }

  /** Tiles follow each other from the begin to the end of the range. */
  lemma TilesAdjoin(begin: int, end: int, block: int, id: int)
    requires block > 0 && 0 <= id < NumTiles(begin, end, block)
    ensures TileBegin(begin, block, 0) == begin
    ensures begin <= TileBegin(begin, block, id) <= TileEnd(begin, end, block, id) <= end
    ensures TileEnd(begin, end, block, id)
         == if id + 1 < NumTiles(begin, end, block) then TileBegin(begin, block, id + 1) else end
  {
    CdivCovers(end - begin, block);
    MulMonotone(0, id, block);
    if id + 1 < NumTiles(begin, end, block) {
      MulMonotone(id + 1, NumTiles(begin, end, block) - 1, block);
    }
  }

  lemma NoTiles(begin: int, end: int, block: int)
    requires block > 0
    ensures NumTiles(begin, end, block) == 0 <==> end <= begin
  {
    CdivCovers(end - begin, block);
  }

  lemma {:induction false} SumOverFirstTiles(f: int -> real, g: int -> real, begin: int, end: int, block: int, t: nat)
    requires block > 0
    requires t < NumTiles(begin, end, block)
    requires forall id :: 0 <= id < NumTiles(begin, end, block)
               ==> g(id) == Sum(f, TileBegin(begin, block, id), TileEnd(begin, end, block, id))
    ensures Sum(g, 0, t) == Sum(f, begin, TileBegin(begin, block, t))
  {
    hide TileBegin, TileEnd, NumTiles;
    TilesAdjoin(begin, end, block, t);
    if t > 0 {
      SumOverFirstTiles(f, g, begin, end, block, t - 1);
      TilesAdjoin(begin, end, block, t - 1);
      SumSplit(f, begin, TileBegin(begin, block, t - 1), TileBegin(begin, block, t));
    }
  }

  /** Summing tile by tile is summing the whole range, whatever the block size. */
  lemma SumOverTiles(f: int -> real, g: int -> real, begin: int, end: int, block: int)
    requires block > 0
    requires forall id :: 0 <= id < NumTiles(begin, end, block)
               ==> g(id) == Sum(f, TileBegin(begin, block, id), TileEnd(begin, end, block, id))
    ensures Sum(g, 0, NumTiles(begin, end, block)) == Sum(f, begin, end)
  {
    hide TileBegin, TileEnd, Cdiv;
    var n := NumTiles(begin, end, block);
    if n > 0 {
      SumOverFirstTiles(f, g, begin, end, block, n - 1);
      TilesAdjoin(begin, end, block, n - 1);
      SumSplit(f, begin, TileBegin(begin, block, n - 1), end);
    } else {
      NoTiles(begin, end, block);
    }
  }
}
