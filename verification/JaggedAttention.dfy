// Jagged HSTU attention of examples/jagged_hstu_attn_2.py: the kernel works on absolute row
// ranges [start, end); the reference pads every sequence, attends and unpads.
module JaggedAttention {
  import opened Sums
  import opened Tiling

  /** Tensors of shape [L, H, D] as functions of (row, head, column). */
  datatype Problem = Problem(
    offsets: seq<nat>, maxLen: nat, heads: nat, dim: nat,
    q: (int, int, int) -> real, k: (int, int, int) -> real, v: (int, int, int) -> real,
    alpha: real, attnScale: real, silu: real -> real)

  /** Monotone offsets from 0; empty sequences are allowed. */
  predicate Offsets(offsets: seq<nat>) {
    && |offsets| > 0 && offsets[0] == 0
    && forall b :: 0 <= b < |offsets| - 1 ==> offsets[b] <= offsets[b + 1]
  }

  predicate LengthsFit(offsets: seq<nat>, maxLen: nat) {
    forall b :: 0 <= b < |offsets| - 1 ==> offsets[b + 1] <= offsets[b] + maxLen
  }

  function Total(offsets: seq<nat>): nat
    requires Offsets(offsets)
  {
    offsets[|offsets| - 1]
  }

  lemma {:induction false} OffsetsMonotone(offsets: seq<nat>, b: nat, c: nat)
    requires Offsets(offsets) && b <= c < |offsets|
    ensures offsets[b] <= offsets[c]
  {
    if b < c {
      OffsetsMonotone(offsets, b, c - 1);
    }
  }

  predicate Owns(offsets: seq<nat>, b: int, row: int) {
    0 <= b < |offsets| - 1 && offsets[b] <= row < offsets[b + 1]
  }

  /** The sequence that holds a row. */
  function Owner(offsets: seq<nat>, row: nat): (b: nat)
    requires Offsets(offsets) && row < Total(offsets)
    ensures Owns(offsets, b, row)
  {
    if offsets[|offsets| - 2] <= row then |offsets| - 2 else Owner(offsets[..|offsets| - 1], row)
  }

  lemma NotOwned(offsets: seq<nat>, o: nat, b: nat, row: int)
    requires Offsets(offsets) && Owns(offsets, o, row) && b < |offsets| - 1 && b != o
    ensures !Owns(offsets, b, row)
  {
    if b < o {
      OffsetsMonotone(offsets, b + 1, o);
    } else {
      OffsetsMonotone(offsets, o + 1, b);
    }
  }

  /** Every row belongs to exactly one sequence, so it lies in exactly one tile and is stored once. */
  lemma RowHasOneOwner(offsets: seq<nat>, row: nat, b: int, block: int, id: int)
    requires Offsets(offsets) && row < Total(offsets) && block > 0
    ensures Owns(offsets, b, row) <==> b == Owner(offsets, row)
    ensures 0 <= b < |offsets| - 1 ==>
              (InTile(offsets[b], offsets[b + 1], block, id, row)
               <==> b == Owner(offsets, row) && id == (row - offsets[b]) / block)
  {
    var o := Owner(offsets, row);
    if 0 <= b < |offsets| - 1 && b != o {
      NotOwned(offsets, o, b, row);
    }
    if 0 <= b < |offsets| - 1 {
      TilesPartition(offsets[b], offsets[b + 1], block, id, row);
    }
  }

  // Padding.

  /** _jagged_to_padded at one element. */
  function PadAt(values: (int, int) -> real, offsets: seq<nat>, maxLen: nat, b: int, x: int, col: int): real {
    if 0 <= b < |offsets| - 1 && 0 <= x < maxLen && offsets[b] + x < offsets[b + 1]
    then values(offsets[b] + x, col) else 0.0
  }

  /** _jagged_to_padded: zeros, then the first min(length, max_len) rows of each sequence. */
  method JaggedToPadded(values: (int, int) -> real, offsets: seq<nat>, maxLen: nat, cols: nat) returns (out: array3<real>)
    requires Offsets(offsets)
    ensures out.Length0 == |offsets| - 1 && out.Length1 == maxLen && out.Length2 == cols
    ensures forall b, x, c :: 0 <= b < |offsets| - 1 && 0 <= x < maxLen && 0 <= c < cols
                              ==> out[b, x, c] == PadAt(values, offsets, maxLen, b, x, c)
  {
    out := new real[|offsets| - 1, maxLen, cols]((b, x, c) => 0.0);
    for i := 0 to |offsets| - 1
      invariant forall b, x, c :: 0 <= b < i && 0 <= x < maxLen && 0 <= c < cols
                                  ==> out[b, x, c] == PadAt(values, offsets, maxLen, b, x, c)
      invariant forall b, x, c :: i <= b < |offsets| - 1 && 0 <= x < maxLen && 0 <= c < cols ==> out[b, x, c] == 0.0
    {
      var s, e := offsets[i], offsets[i + 1];
      var n := if e - s < maxLen then e - s else maxLen;
      forall x, c | 0 <= x < n && 0 <= c < cols {
        out[i, x, c] := values(s + x, c);
      }
    }
  }

  /** _padded_to_jagged at one element: the row's place in its own sequence. */
  function UnpadAt(padded: (int, int, int) -> real, offsets: seq<nat>, row: nat, col: int): real
    requires Offsets(offsets) && row < Total(offsets)
  {
    var b := Owner(offsets, row);
    padded(b, row - offsets[b], col)
  }

  /** _padded_to_jagged; a longer sequence than max_len would not fit its slice. */
  method PaddedToJagged(padded: (int, int, int) -> real, offsets: seq<nat>, maxLen: nat, cols: nat) returns (out: array2<real>)
    requires Offsets(offsets) && LengthsFit(offsets, maxLen)
    ensures out.Length0 == Total(offsets) && out.Length1 == cols
    ensures forall r, c :: 0 <= r < Total(offsets) && 0 <= c < cols ==> out[r, c] == UnpadAt(padded, offsets, r, c)
  {
    hide Owner;
    out := new real[Total(offsets), cols]((r, c) => 0.0);
    for i := 0 to |offsets| - 1
      invariant forall r, c :: 0 <= r < offsets[i] && r < Total(offsets) && 0 <= c < cols
                               ==> out[r, c] == UnpadAt(padded, offsets, r, c)
    {
      var s, e := offsets[i], offsets[i + 1];
      OffsetsMonotone(offsets, i + 1, |offsets| - 1);
      forall r: nat, c | s <= r < e && 0 <= c < cols
        ensures padded(i, r - s, c) == UnpadAt(padded, offsets, r, c)
      {
        RowHasOneOwner(offsets, r, i, 1, 0);
      }
      forall r, c | s <= r < e && 0 <= c < cols {
        out[r, c] := padded(i, r - s, c);
      }
    }
  }

  /** Unpadding a padded tensor gives back every row that padding did not cut off. */
  lemma UnpadInvertsPad(values: (int, int) -> real, offsets: seq<nat>, maxLen: nat, row: nat, col: int)
    requires Offsets(offsets) && row < Total(offsets)
    ensures UnpadAt((b, x, c) => PadAt(values, offsets, maxLen, b, x, c), offsets, row, col)
         == if row - offsets[Owner(offsets, row)] < maxLen then values(row, col) else 0.0
    ensures LengthsFit(offsets, maxLen) ==> row - offsets[Owner(offsets, row)] < maxLen
  {
  }

  // Attention.

  function DotTerms(q: int -> real, k: int -> real): int -> real {
    a => q(a) * k(a)
  }

  function ScaledDot(p: Problem, q: int -> real, k: int -> real): real {
    Sum(DotTerms(q, k), 0, p.dim) * p.alpha
  }

  /** silu(q . k * alpha) * attn_scale. */
  function Score(p: Problem, q: int -> real, k: int -> real): real {
    p.silu(ScaledDot(p, q, k)) * p.attnScale
  }

  lemma DotOfEqualRows(p: Problem, q: int -> real, k: int -> real, q': int -> real, k': int -> real)
    requires forall a :: q(a) == q'(a) && k(a) == k'(a)
    ensures ScaledDot(p, q, k) == ScaledDot(p, q', k')
  {
    hide Sum;
    forall a
      ensures DotTerms(q, k)(a) == DotTerms(q', k')(a)
    {
      assert q(a) == q'(a) && k(a) == k'(a);
    }
    SumEq(DotTerms(q, k), DotTerms(q', k'), 0, p.dim);
  }

  lemma ScoreOfEqualRows(p: Problem, q: int -> real, k: int -> real, q': int -> real, k': int -> real)
    requires forall a :: q(a) == q'(a) && k(a) == k'(a)
    ensures Score(p, q, k) == Score(p, q', k')
  {
    hide ScaledDot;
    assert ScaledDot(p, q, k) == ScaledDot(p, q', k') by {
      DotOfEqualRows(p, q, k, q', k');
    }
  }

  function RowOf(t: (int, int, int) -> real, row: int, h: int): int -> real {
    a => t(row, h, a)
  }

  /** The padded tensor of one head, as the reference reads it. */
  function PaddedRow(p: Problem, t: (int, int, int) -> real, b: int, x: int, h: int): int -> real {
    a => PadAt((row, col) => t(row, h, col), p.offsets, p.maxLen, b, x, a)
  }

  function KernelTerms(p: Problem, i: int, h: int, d: int): int -> real {
    j => (if i >= j then Score(p, RowOf(p.q, i, h), RowOf(p.k, j, h)) else 0.0) * p.v(j, h, d)
  }

  function ReferenceTerms(p: Problem, b: int, x: int, h: int, d: int): int -> real {
    y => Score(p, PaddedRow(p, p.q, b, x, h), PaddedRow(p, p.k, b, y, h)) * (if x >= y then 1.0 else 0.0)
         * PaddedRow(p, p.v, b, y, h)(d)
  }

  /** reference_jagged_hstu_attention: over all max_len padded positions of the row's sequence. */
  function Reference(p: Problem, row: nat, h: int, d: int): real
    requires Offsets(p.offsets) && row < Total(p.offsets)
  {
    UnpadAt((b, x, c) => Sum(ReferenceTerms(p, b, x, h, c), 0, p.maxLen), p.offsets, row, d)
  }

  lemma MaskIsFactor(score: real, visible: bool)
    ensures score * (if visible then 1.0 else 0.0) == if visible then score else 0.0
  {
  }

  lemma TermInSequence(p: Problem, b: int, x: int, y: int, h: int, d: int)
    requires Offsets(p.offsets) && LengthsFit(p.offsets, p.maxLen) && 0 <= b < |p.offsets| - 1
    requires 0 <= x < p.offsets[b + 1] - p.offsets[b] && 0 <= y < p.offsets[b + 1] - p.offsets[b]
    ensures ReferenceTerms(p, b, x, h, d)(y) == KernelTerms(p, p.offsets[b] + x, h, d)(p.offsets[b] + y)
  {
    hide Score;
    var s := p.offsets[b];
    ScoreOfEqualRows(p, PaddedRow(p, p.q, b, x, h), PaddedRow(p, p.k, b, y, h), RowOf(p.q, s + x, h), RowOf(p.k, s + y, h));
    MaskIsFactor(Score(p, RowOf(p.q, s + x, h), RowOf(p.k, s + y, h)), x >= y);
    assert PaddedRow(p, p.v, b, y, h)(d) == p.v(s + y, h, d);
  }

  lemma TermPastSequence(p: Problem, b: int, x: int, y: int, h: int, d: int)
    requires x < y
    ensures ReferenceTerms(p, b, x, h, d)(y) == 0.0
  {
    hide Score, PaddedRow;
    var score := Score(p, PaddedRow(p, p.q, b, x, h), PaddedRow(p, p.k, b, y, h));
    assert score * 0.0 == 0.0;
  }

  /** The kernel's sum over [start, end) is the reference's sum over the padded axis. */
  lemma RangeIsPadded(p: Problem, b: int, row: nat, h: int, d: int)
    requires Offsets(p.offsets) && LengthsFit(p.offsets, p.maxLen) && row < Total(p.offsets) && Owns(p.offsets, b, row)
    ensures Sum(KernelTerms(p, row, h, d), p.offsets[b], p.offsets[b + 1]) == Reference(p, row, h, d)
  {
    hide Sum, ReferenceTerms, KernelTerms, Owner;
    var s, e := p.offsets[b], p.offsets[b + 1];
    var x, len := row - s, e - s;
    RowHasOneOwner(p.offsets, row, b, 1, 0);
    var reference, kernel := ReferenceTerms(p, b, x, h, d), KernelTerms(p, row, h, d);
    forall y | 0 <= y < len
      ensures reference(y) == kernel(y + s)
    {
      TermInSequence(p, b, x, y, h, d);
    }
    forall y | len <= y < p.maxLen
      ensures reference(y) == 0.0
    {
      TermPastSequence(p, b, x, y, h, d);
    }
    SumShift(kernel, reference, 0, len, s);
    SumSplit(reference, 0, len, p.maxLen);
    SumZero(reference, len, p.maxLen);
  }

  /** Both scales moved into the operands: alpha into q, attn_scale into v. */
  function Folded(p: Problem): Problem {
    p.(alpha := 1.0, attnScale := 1.0,
       q := (row, h, a) => p.q(row, h, a) * p.alpha, v := (row, h, a) => p.v(row, h, a) * p.attnScale)
  }

  lemma Exchange(a: real, b: real, c: real)
    ensures a * b * c == a * c * b
    ensures a * 1.0 == a
  {
  }

  lemma FoldedDot(p: Problem, i: int, j: int, h: int)
    ensures ScaledDot(Folded(p), RowOf(Folded(p).q, i, h), RowOf(Folded(p).k, j, h)) == ScaledDot(p, RowOf(p.q, i, h), RowOf(p.k, j, h))
  {
    hide Sum;
    var terms, folded := DotTerms(RowOf(p.q, i, h), RowOf(p.k, j, h)), DotTerms(RowOf(Folded(p).q, i, h), RowOf(Folded(p).k, j, h));
    forall a
      ensures folded(a) == terms(a) * p.alpha
    {
      Exchange(p.q(i, h, a), p.alpha, p.k(j, h, a));
    }
    SumScale(terms, folded, p.alpha, 0, p.dim);
  }

  lemma FoldedTerm(p: Problem, i: int, h: int, d: int, j: int)
    ensures KernelTerms(Folded(p), i, h, d)(j) == KernelTerms(p, i, h, d)(j)
  {
    hide ScaledDot, RowOf;
    FoldedDot(p, i, j, h);
    var gate := p.silu(ScaledDot(p, RowOf(p.q, i, h), RowOf(p.k, j, h)));
    Exchange(gate, p.attnScale, p.v(j, h, d));
    Regroup(gate, p.v(j, h, d), p.attnScale);
    assert Score(Folded(p), RowOf(Folded(p).q, i, h), RowOf(Folded(p).k, j, h)) == gate;
  }

  /** Attention is linear before the gate and after it, so the scales can be applied to q and v instead. */
  lemma ScalesFold(p: Problem, row: nat, h: int, d: int)
    requires Offsets(p.offsets) && LengthsFit(p.offsets, p.maxLen) && row < Total(p.offsets)
    ensures Reference(Folded(p), row, h, d) == Reference(p, row, h, d)
  {
    hide Sum, Reference, KernelTerms, Owner;
    var b := Owner(p.offsets, row);
    forall j
      ensures KernelTerms(Folded(p), row, h, d)(j) == KernelTerms(p, row, h, d)(j)
    {
      FoldedTerm(p, row, h, d, j);
    }
    SumEq(KernelTerms(Folded(p), row, h, d), KernelTerms(p, row, h, d), p.offsets[b], p.offsets[b + 1]);
    RangeIsPadded(p, b, row, h, d);
    RangeIsPadded(Folded(p), b, row, h, d);
  }

  /** One element of a query row: the loop over key tiles. */
  method Element(p: Problem, start: int, end: int, i: int, h: int, d: int, block: int) returns (acc: real)
    requires start <= end && block > 0
    ensures acc == Sum(KernelTerms(p, i, h, d), start, end)
  {
    hide *;
    acc := 0.0;
    var lo := start;
    SumZero(KernelTerms(p, i, h, d), start, start);
    while lo < end
      invariant start <= lo <= end
      invariant acc == Sum(KernelTerms(p, i, h, d), start, lo)
    {
      var hi := if lo + block < end then lo + block else end;
      SumSplit(KernelTerms(p, i, h, d), start, lo, hi);
      acc := acc + Sum(KernelTerms(p, i, h, d), lo, hi);
      lo := hi;
    }
  }

  /** All heads and columns of a query row. */
  method Row(p: Problem, b: nat, row: nat, block: int, out: array3<real>)
    requires Offsets(p.offsets) && LengthsFit(p.offsets, p.maxLen) && row < Total(p.offsets) && Owns(p.offsets, b, row)
    requires |p.offsets| > b + 1 && p.offsets[b] <= p.offsets[b + 1]
    requires block > 0 && out.Length0 > row && out.Length1 == p.heads && out.Length2 == p.dim
    modifies out
    ensures forall h, d :: 0 <= h < p.heads && 0 <= d < p.dim ==> out[row, h, d] == Reference(p, row, h, d)
    ensures forall r, h, d :: 0 <= r < out.Length0 && r != row && 0 <= h < p.heads && 0 <= d < p.dim
                              ==> out[r, h, d] == old(out[r, h, d])
  {
    hide *;
    for h := 0 to p.heads
      invariant forall g, d :: 0 <= g < h && 0 <= d < p.dim ==> out[row, g, d] == Reference(p, row, g, d)
      invariant forall r, g, d :: 0 <= r < out.Length0 && r != row && 0 <= g < p.heads && 0 <= d < p.dim
                                  ==> out[r, g, d] == old(out[r, g, d])
    {
      for d := 0 to p.dim
        invariant forall g, c :: 0 <= g < h && 0 <= c < p.dim ==> out[row, g, c] == Reference(p, row, g, c)
        invariant forall c :: 0 <= c < d ==> out[row, h, c] == Reference(p, row, h, c)
        invariant forall r, g, c :: 0 <= r < out.Length0 && r != row && 0 <= g < p.heads && 0 <= c < p.dim
                                    ==> out[r, g, c] == old(out[r, g, c])
      {
        out[row, h, d] := Element(p, p.offsets[b], p.offsets[b + 1], row, h, d, block);
        RangeIsPadded(p, b, row, h, d);
      }
    }
  }

  ghost predicate RowsDone(p: Problem, out: array3<real>, rows: int)
    requires Offsets(p.offsets) && out.Length0 == Total(p.offsets) && out.Length1 == p.heads && out.Length2 == p.dim
    reads out
  {
    forall r, h, d :: 0 <= r < rows && r < Total(p.offsets) && 0 <= h < p.heads && 0 <= d < p.dim
                      ==> out[r, h, d] == Reference(p, r, h, d)
  }

  /** jagged_hstu_attention: every sequence, every query tile, every key tile. */
  method Kernel(p: Problem, blockQ: int, blockKv: int) returns (out: array3<real>)
    requires Offsets(p.offsets) && LengthsFit(p.offsets, p.maxLen) && blockQ > 0 && blockKv > 0
    ensures out.Length0 == Total(p.offsets) && out.Length1 == p.heads && out.Length2 == p.dim
    ensures forall r, h, d :: 0 <= r < Total(p.offsets) && 0 <= h < p.heads && 0 <= d < p.dim
                              ==> out[r, h, d] == Reference(p, r, h, d)
  {
    hide Reference, LengthsFit;
    out := new real[Total(p.offsets), p.heads, p.dim];
    for b := 0 to |p.offsets| - 1
      invariant RowsDone(p, out, p.offsets[b])
    {
      var start, end := p.offsets[b], p.offsets[b + 1];
      OffsetsMonotone(p.offsets, b + 1, |p.offsets| - 1);
      var lo := start;
      while lo < end
        invariant start <= lo <= end
        invariant RowsDone(p, out, lo)
      {
        var hi := if lo + blockQ < end then lo + blockQ else end;
        for row := lo to hi
          invariant RowsDone(p, out, row)
        {
          Row(p, b, row, blockKv, out);
        }
        lo := hi;
      }
    }
  }
}
