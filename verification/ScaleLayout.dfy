// The SWIZZLE_32_4_4 scale layout of examples/nvfp4_gemm.py and examples/nvfp4_gemv.py.
module ScaleLayout {
  import opened Tiling

  function RoundUp(a: int, b: int): int
    requires b > 0
  {
    Cdiv(a, b) * b
  }

  /** swizzled_scale_numel. */
  function Numel(rows: nat, cols: nat): int {
    RoundUp(rows, 128) * RoundUp(cols, 4)
  }

  /** swizzled_scale_offsets. */
  function Offset(row: int, col: int, cols: int): int {
    var numColTiles := Cdiv(cols, 4);
    var tileOffset := (row / 128 * numColTiles + col / 4) * 512;
    tileOffset + row % 32 * 16 + row % 128 / 32 * 4 + col % 4
  }

  /** The row and column that own an offset. */
  function RowOf(offset: int, cols: int): int
    requires Cdiv(cols, 4) != 0
  {
    offset / 512 / Cdiv(cols, 4) * 128 + offset % 512 % 16 / 4 * 32 + offset % 512 / 16
  }

  function ColOf(offset: int, cols: int): int
    requires Cdiv(cols, 4) != 0
  {
    offset / 512 % Cdiv(cols, 4) * 4 + offset % 4
  }

  /** The cells of the padded grid. */
  predicate InGrid(row: int, col: int, rows: nat, cols: nat) {
    0 <= row < RoundUp(rows, 128) && 0 <= col < RoundUp(cols, 4)
  }

  /**
   * The digits of a cell: row tr * 128 + b * 32 + a and column tc * 4 + d. Its offset has the
   * same digits in another order.
   */
  ghost predicate Digits(tr: int, b: int, a: int, tc: int, d: int) {
    0 <= tr && 0 <= b < 4 && 0 <= a < 32 && 0 <= tc && 0 <= d < 4
  }

  lemma RowDigits(tr: int, b: int, a: int)
    requires 0 <= tr && 0 <= b < 4 && 0 <= a < 32
    ensures var row := tr * 128 + b * 32 + a;
            row / 128 == tr && row % 128 == b * 32 + a && row % 32 == a && row % 128 / 32 == b
  {
    DivUnique(tr * 128 + b * 32 + a, tr, 128);
    DivUnique(tr * 128 + b * 32 + a, tr * 4 + b, 32);
    DivUnique(b * 32 + a, b, 32);
  }

  lemma ColDigits(tc: int, d: int)
    requires 0 <= tc && 0 <= d < 4
    ensures (tc * 4 + d) / 4 == tc && (tc * 4 + d) % 4 == d
  {
  }

  lemma OffsetDigits(tile: int, b: int, a: int, d: int)
    requires 0 <= tile && 0 <= b < 4 && 0 <= a < 32 && 0 <= d < 4
    ensures var offset := tile * 512 + a * 16 + b * 4 + d;
            && offset / 512 == tile && offset % 512 == a * 16 + b * 4 + d
            && offset % 512 / 16 == a && offset % 512 % 16 / 4 == b && offset % 4 == d
  {
    var offset, l := tile * 512 + a * 16 + b * 4 + d, a * 16 + b * 4 + d;
    DivUnique(offset, tile, 512);
    DivUnique(l, a, 16);
    assert l % 16 == b * 4 + d;
    DivUnique(b * 4 + d, b, 4);
    DivUnique(offset, tile * 128 + a * 4 + b, 4);
  }

  /** A cell given by its digits, its offset, and back. */
  lemma CellAndOffset(tr: int, b: int, a: int, tc: int, d: int, cols: nat)
    requires Digits(tr, b, a, tc, d) && tc < Cdiv(cols, 4)
    ensures var row, col, tile := tr * 128 + b * 32 + a, tc * 4 + d, tr * Cdiv(cols, 4) + tc;
            && Offset(row, col, cols) == tile * 512 + a * 16 + b * 4 + d
            && RowOf(Offset(row, col, cols), cols) == row && ColOf(Offset(row, col, cols), cols) == col
  {
    RowDigits(tr, b, a);
    ColDigits(tc, d);
    GridNumber(tr, tc, tr + 1, Cdiv(cols, 4));
    OffsetDigits(tr * Cdiv(cols, 4) + tc, b, a, d);
  }

  lemma DigitsOfCell(row: int, col: int)
    requires 0 <= row && 0 <= col
    ensures Digits(row / 128, row % 128 / 32, row % 32, col / 4, col % 4)
    ensures row == row / 128 * 128 + row % 128 / 32 * 32 + row % 32 && col == col / 4 * 4 + col % 4
  {
    DivUnique(row, row / 128 * 4 + row % 128 / 32, 32);
  }

  lemma DigitsOfOffset(offset: int)
    requires 0 <= offset
    ensures 0 <= offset / 512 && 0 <= offset % 512 % 16 / 4 < 4 && 0 <= offset % 512 / 16 < 32 && 0 <= offset % 4 < 4
    ensures offset == offset / 512 * 512 + offset % 512 / 16 * 16 + offset % 512 % 16 / 4 * 4 + offset % 4
  {
    var l := offset % 512;
    assert l == l / 16 * 16 + l % 16;
    assert l % 16 == l % 16 / 4 * 4 + l % 16 % 4;
    DivUnique(offset, offset / 512 * 128 + l / 16 * 4 + l % 16 / 4, 4);
  }

  lemma OffsetInTile(tile: int, tiles: int, b: int, a: int, d: int)
    requires 0 <= tile < tiles && 0 <= b < 4 && 0 <= a < 32 && 0 <= d < 4
    ensures 0 <= tile * 512 + a * 16 + b * 4 + d < tiles * 512
  {
  }

  lemma NumelIsTiles(rows: nat, cols: nat)
    ensures Numel(rows, cols) == Cdiv(rows, 128) * Cdiv(cols, 4) * 512
  {
  }

  /** No two cells of the padded grid share an offset, and every offset is in range. */
  lemma OffsetIsInjective(row: int, col: int, rows: nat, cols: nat)
    requires InGrid(row, col, rows, cols)
    ensures 0 <= Offset(row, col, cols) < Numel(rows, cols)
    ensures Cdiv(cols, 4) > 0
    ensures RowOf(Offset(row, col, cols), cols) == row && ColOf(Offset(row, col, cols), cols) == col
  {
    hide Offset, RowOf, ColOf, Numel;
    var tr, tc, tiles := row / 128, col / 4, Cdiv(cols, 4);
    DigitsOfCell(row, col);
    CellAndOffset(tr, row % 128 / 32, row % 32, tc, col % 4, cols);
    GridNumber(tr, tc, Cdiv(rows, 128), tiles);
    NumelIsTiles(rows, cols);
    OffsetInTile(tr * tiles + tc, Cdiv(rows, 128) * tiles, row % 128 / 32, row % 32, col % 4);
  }

  lemma SomeTiles(rows: nat, cols: nat)
    ensures Numel(rows, cols) > 0 ==> Cdiv(cols, 4) > 0
  {
    CdivCovers(rows, 128);
    CdivCovers(cols, 4);
    NumelIsTiles(rows, cols);
    if Cdiv(cols, 4) <= 0 {
      assert Cdiv(cols, 4) == 0;
    }
  }

  lemma TileSplit(tile: int, tiles: int, tileRows: int)
    requires tiles > 0 && 0 <= tile < tileRows * tiles
    ensures 0 <= tile / tiles < tileRows && 0 <= tile % tiles < tiles
    ensures tile == tile / tiles * tiles + tile % tiles
  {
    DivBounds(tile, tile, tiles);
    if tile / tiles >= tileRows {
      MulMonotone(tileRows, tile / tiles, tiles);
    }
  }

  /** Every offset belongs to a cell of the padded grid. */
  lemma OffsetIsSurjective(offset: int, rows: nat, cols: nat)
    requires 0 <= offset < Numel(rows, cols)
    ensures Cdiv(cols, 4) > 0
    ensures InGrid(RowOf(offset, cols), ColOf(offset, cols), rows, cols)
    ensures Offset(RowOf(offset, cols), ColOf(offset, cols), cols) == offset
  {
    hide Offset, Numel, Cdiv;
    SomeTiles(rows, cols);
    NumelIsTiles(rows, cols);
    var tiles, tile := Cdiv(cols, 4), offset / 512;
    DigitsOfOffset(offset);
    TileSplit(tile, tiles, Cdiv(rows, 128));
    var b, a, d := offset % 512 % 16 / 4, offset % 512 / 16, offset % 4;
    CellAndOffset(tile / tiles, b, a, tile % tiles, d, cols);
    assert RowOf(offset, cols) == tile / tiles * 128 + b * 32 + a;
    assert ColOf(offset, cols) == tile % tiles * 4 + d;
  }

  lemma LogicalIsInGrid(row: int, col: int, rows: nat, cols: nat)
    requires 0 <= row < rows && 0 <= col < cols
    ensures InGrid(row, col, rows, cols)
  {
    CdivCovers(rows, 128);
    CdivCovers(cols, 4);
  }

  type Matrix = seq<seq<real>>

  predicate Shape(m: Matrix, rows: nat, cols: nat) {
    |m| == rows && forall i :: 0 <= i < rows ==> |m[i]| == cols
  }

  /** What slot `offset` holds: the scale of its cell, or padding. */
  function Slot(scales: Matrix, rows: nat, cols: nat, offset: int): real
    requires Shape(scales, rows, cols) && Cdiv(cols, 4) != 0
  {
    var row, col := RowOf(offset, cols), ColOf(offset, cols);
    if 0 <= row < rows && 0 <= col < cols then scales[row][col] else 0.0
  }

  lemma NumelIsNatural(rows: nat, cols: nat)
    ensures Numel(rows, cols) >= 0
  {
    CdivCovers(rows, 128);
    CdivCovers(cols, 4);
    MulMonotone(0, Cdiv(rows, 128), Cdiv(cols, 4));
    NumelIsTiles(rows, cols);
  }

  /** swizzle_fp8_scales: scatter into zeros. */
  method Swizzle(scales: Matrix, rows: nat, cols: nat) returns (out: array<real>)
    requires Shape(scales, rows, cols)
    ensures out.Length == Numel(rows, cols)
    ensures forall row, col :: 0 <= row < rows && 0 <= col < cols ==>
              0 <= Offset(row, col, cols) < out.Length && out[Offset(row, col, cols)] == scales[row][col]
    ensures forall k :: 0 <= k < out.Length ==> Cdiv(cols, 4) != 0 && out[k] == Slot(scales, rows, cols, k)
  {
    CdivCovers(rows, 128);
    CdivCovers(cols, 4);
    NumelIsNatural(rows, cols);
    out := new real[Numel(rows, cols)](_ => 0.0);
    SomeTiles(rows, cols);
    for row := 0 to rows
      invariant forall k :: 0 <= k < out.Length ==>
                  out[k] == if RowOf(k, cols) < row then Slot(scales, rows, cols, k) else 0.0
    {
      for col := 0 to cols
        invariant forall k :: 0 <= k < out.Length ==>
                    out[k] == if RowOf(k, cols) < row || (RowOf(k, cols) == row && ColOf(k, cols) < col)
                              then Slot(scales, rows, cols, k) else 0.0
      {
        LogicalIsInGrid(row, col, rows, cols);
        OffsetIsInjective(row, col, rows, cols);
        ghost var before := out[..];
        out[Offset(row, col, cols)] := scales[row][col];
        forall k | 0 <= k < out.Length
          ensures out[k] == if RowOf(k, cols) < row || (RowOf(k, cols) == row && ColOf(k, cols) < col + 1)
                            then Slot(scales, rows, cols, k) else 0.0
        {
          OffsetIsSurjective(k, rows, cols);
          assert k != Offset(row, col, cols) ==> out[k] == before[k];
        }
      }
      forall k | 0 <= k < out.Length && RowOf(k, cols) == row && ColOf(k, cols) >= cols
        ensures Slot(scales, rows, cols, k) == 0.0
      {
      }
    }
    forall k | 0 <= k < out.Length
      ensures out[k] == Slot(scales, rows, cols, k)
    {
      OffsetIsSurjective(k, rows, cols);
    }
    forall row, col | 0 <= row < rows && 0 <= col < cols
      ensures 0 <= Offset(row, col, cols) < out.Length && out[Offset(row, col, cols)] == scales[row][col]
    {
      LogicalIsInGrid(row, col, rows, cols);
      OffsetIsInjective(row, col, rows, cols);
    }
  }

  /** The swizzled form as a sequence. */
  function Swizzled(scales: Matrix, rows: nat, cols: nat): (flat: seq<real>)
    requires Shape(scales, rows, cols)
  {
    NumelIsNatural(rows, cols);
    seq(Numel(rows, cols), k => if Cdiv(cols, 4) != 0 then Slot(scales, rows, cols, k) else 0.0)
  }

  /** unswizzle_fp8_scales: gather. */
  function Unswizzled(flat: seq<real>, rows: nat, cols: nat): Matrix {
    seq(rows, row => seq(cols, col =>
      if 0 <= Offset(row, col, cols) < |flat| then flat[Offset(row, col, cols)] else 0.0))
  }

  lemma UnswizzleInvertsSwizzle(scales: Matrix, rows: nat, cols: nat)
    requires Shape(scales, rows, cols)
    ensures Unswizzled(Swizzled(scales, rows, cols), rows, cols) == scales
  {
    var flat := Swizzled(scales, rows, cols);
    var back := Unswizzled(flat, rows, cols);
    forall row | 0 <= row < rows
      ensures back[row] == scales[row]
    {
      forall col | 0 <= col < cols
        ensures back[row][col] == scales[row][col]
      {
        LogicalIsInGrid(row, col, rows, cols);
        OffsetIsInjective(row, col, rows, cols);
      }
    }
  }

  ghost predicate PaddingIsZero(flat: seq<real>, rows: nat, cols: nat) {
    forall row, col :: InGrid(row, col, rows, cols) && !(row < rows && col < cols)
                       ==> 0 <= Offset(row, col, cols) < |flat| && flat[Offset(row, col, cols)] == 0.0
  }

  /** The other way round, exactly the layouts whose padding is zero come back. */
  lemma SwizzleInvertsUnswizzleIff(flat: seq<real>, rows: nat, cols: nat)
    requires |flat| == Numel(rows, cols)
    ensures Swizzled(Unswizzled(flat, rows, cols), rows, cols) == flat <==> PaddingIsZero(flat, rows, cols)
  {
    var again := Swizzled(Unswizzled(flat, rows, cols), rows, cols);
    forall k | 0 <= k < |flat|
      ensures again[k] == if Cdiv(cols, 4) != 0 && RowOf(k, cols) < rows && ColOf(k, cols) < cols then flat[k] else 0.0
      ensures PaddingIsZero(flat, rows, cols) ==> again[k] == flat[k]
    {
      OffsetIsSurjective(k, rows, cols);
    }
    if again == flat {
      forall row, col | InGrid(row, col, rows, cols) && !(row < rows && col < cols)
        ensures 0 <= Offset(row, col, cols) < |flat| && flat[Offset(row, col, cols)] == 0.0
      {
        OffsetIsInjective(row, col, rows, cols);
      }
    }
  }
}
