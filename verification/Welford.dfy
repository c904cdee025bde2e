// The layer norm of examples/welford.py: one pass over the tiles of a row merges each tile's
// count, mean and sum of squared deviations into the running ones; a second pass normalises.
module Welford {
  import opened Sums
  import opened Tiling

  function Squares(x: int -> real): int -> real {
    i => x(i) * x(i)
  }

  function Deviations(x: int -> real, c: real): int -> real {
    i => (x(i) - c) * (x(i) - c)
  }

  /** Sum of squared deviations from c over [lo, hi). */
  function Spread(x: int -> real, lo: int, hi: int, c: real): real {
    Sum(Deviations(x, c), lo, hi)
  }

  /** The mean of a non-empty range. */
  function Mean(x: int -> real, lo: int, hi: int): real
    requires lo < hi
  {
    Sum(x, lo, hi) / (hi - lo) as real
  }

  function Variance(x: int -> real, n: int): real
    requires n > 0
  {
    Spread(x, 0, n, Mean(x, 0, n)) / n as real
  }

  lemma EmptyRange(x: int -> real, lo: int, c: real)
    ensures Spread(x, lo, lo, c) == Sum(Squares(x), lo, lo) == Sum(x, lo, lo) == 0.0
    ensures 2.0 * c * 0.0 == 0.0 && c * c * 0.0 == 0.0
  {
  }

  lemma LastColumn(x: int -> real, lo: int, hi: int, c: real)
    requires lo < hi
    ensures Spread(x, lo, hi, c) == Spread(x, lo, hi - 1, c) + (x(hi - 1) - c) * (x(hi - 1) - c)
    ensures Sum(Squares(x), lo, hi) == Sum(Squares(x), lo, hi - 1) + x(hi - 1) * x(hi - 1)
    ensures Sum(x, lo, hi) == Sum(x, lo, hi - 1) + x(hi - 1)
  {
  }

  lemma AddColumn(c: real, s: real, a: real, n: real)
    ensures (a - c) * (a - c) == a * a - 2.0 * c * a + c * c
    ensures 2.0 * c * (s + a) == 2.0 * c * s + 2.0 * c * a
    ensures c * c * (n + 1.0) == c * c * n + c * c
  {
  }

  /** Deviations from any centre, through the sum and the sum of squares. */
  lemma {:induction false} SpreadBySums(x: int -> real, lo: int, hi: int, c: real)
    requires lo <= hi
    ensures Spread(x, lo, hi, c) == Sum(Squares(x), lo, hi) - 2.0 * c * Sum(x, lo, hi) + c * c * (hi - lo) as real
    decreases hi - lo
  {
    hide Spread, Squares;
    if lo == hi {
      EmptyRange(x, lo, c);
    } else {
      SpreadBySums(x, lo, hi - 1, c);
      LastColumn(x, lo, hi, c);
      AddColumn(c, Sum(x, lo, hi - 1), x(hi - 1), (hi - 1 - lo) as real);
    }
  }

  /** What the running triple means after the first `n` columns. */
  ghost predicate Moments(x: int -> real, n: int, mean: real, m2: real) {
    && n >= 0
    && n as real * mean == Sum(x, 0, n)
    && m2 == Sum(Squares(x), 0, n) - n as real * mean * mean
  }

  lemma Quotient(n: real, mean: real, total: real)
    requires n > 0.0 && n * mean == total
    ensures mean == total / n
  {
  }

  lemma SpreadAtMean(mean: real, n: real, total: real)
    requires n * mean == total
    ensures -2.0 * mean * total + mean * mean * n == -(n * mean * mean)
  {
    assert mean * total == mean * (n * mean) == n * mean * mean;
    assert mean * mean * n == n * mean * mean;
  }

  /** The first two moments are the mean and the sum of squared deviations from it. */
  lemma MomentsAreMeanAndSpread(x: int -> real, n: int, mean: real, m2: real)
    requires Moments(x, n, mean, m2) && n > 0
    ensures mean == Mean(x, 0, n)
    ensures m2 == Spread(x, 0, n, mean)
  {
    hide Sum, Spread;
    SpreadBySums(x, 0, n, mean);
    Quotient(n as real, mean, Sum(x, 0, n));
    SpreadAtMean(mean, n as real, Sum(x, 0, n));
  }

  /** A tile on its own. */
  lemma TileMoments(x: int -> real, lo: int, hi: int)
    requires lo < hi
    ensures var mean := Mean(x, lo, hi);
            && (hi - lo) as real * mean == Sum(x, lo, hi)
            && Spread(x, lo, hi, mean) == Sum(Squares(x), lo, hi) - (hi - lo) as real * mean * mean
  {
    hide Sum, Spread;
    var mean := Mean(x, lo, hi);
    SpreadBySums(x, lo, hi, mean);
    SpreadAtMean(mean, (hi - lo) as real, Sum(x, lo, hi));
  }

  lemma InnerIdentity(r: real, mean: real, delta: real)
    ensures (1.0 - r) * mean * mean + r * (mean + delta) * (mean + delta) - delta * delta * ((1.0 - r) * r)
         == (mean + delta * r) * (mean + delta * r)
  {
    var mm, md, dd := mean * mean, mean * delta, delta * delta;
    assert (mean + delta) * (mean + delta) == mm + 2.0 * md + dd;
    assert (mean + delta * r) * (mean + delta * r) == mm + 2.0 * (md * r) + dd * r * r;
    assert r * (mean + delta) * (mean + delta) == r * (mm + 2.0 * md + dd);
    assert (1.0 - r) * mean * mean == mm - r * mm;
    assert dd * ((1.0 - r) * r) == dd * r - dd * r * r;
  }

  /** With r the tile's share of the new count, the merge is an identity between polynomials. */
  lemma MergeIdentity(n: real, r: real, mean: real, delta: real)
    ensures var merged := mean + delta * r;
            && n * (1.0 - r) * mean + n * r * (mean + delta) == n * merged
            && -(n * (1.0 - r) * mean * mean) - n * r * (mean + delta) * (mean + delta) + delta * delta * (n * (1.0 - r) * r)
               == -(n * merged * merged)
  {
    var merged := mean + delta * r;
    var inner := (1.0 - r) * mean * mean + r * (mean + delta) * (mean + delta) - delta * delta * ((1.0 - r) * r);
    assert inner == merged * merged by {
      InnerIdentity(r, mean, delta);
    }
    calc {
      n * (1.0 - r) * mean * mean + n * r * (mean + delta) * (mean + delta) - delta * delta * (n * (1.0 - r) * r);
      n * inner;
      n * (merged * merged);
    }
    assert (1.0 - r) * mean + r * (mean + delta) == merged;
    assert n * (1.0 - r) * mean + n * r * (mean + delta) == n * ((1.0 - r) * mean + r * (mean + delta));
  }

  lemma Shares(count: real, tn: real, cnt: real)
    requires cnt == count + tn && cnt > 0.0
    ensures cnt * (tn / cnt) == tn
    ensures cnt * (1.0 - tn / cnt) == count
    ensures count * tn / cnt == cnt * (1.0 - tn / cnt) * (tn / cnt)
  {
  }

  /** The loop body keeps the meaning of the running triple; the divisor is positive. */
  lemma MergeKeepsMoments(x: int -> real, lo: int, hi: int, cnt: real, mean: real, m2: real,
                          tn: real, meanC: real, delta: real, newCnt: real)
    requires Moments(x, lo, mean, m2) && 0 <= lo < hi && cnt == lo as real
    requires tn == (hi - lo) as real && meanC == Mean(x, lo, hi) && delta == meanC - mean && newCnt == cnt + tn
    ensures newCnt == hi as real > 0.0
    ensures Moments(x, hi, mean + delta * (tn / newCnt),
                    m2 + Spread(x, lo, hi, meanC) + delta * delta * (cnt * tn / newCnt))
  {
    hide Sum, Spread, Squares, Mean;
    TileMoments(x, lo, hi);
    SumSplit(x, 0, lo, hi);
    SumSplit(Squares(x), 0, lo, hi);
    Shares(cnt, tn, newCnt);
    MergeIdentity(newCnt, tn / newCnt, mean, delta);
    assert mean + delta == meanC;
  }

  lemma NoColumns(x: int -> real)
    ensures Moments(x, 0, 0.0, 0.0)
  {
  }

  /** First pass over one row. */
  method RowMoments(x: int -> real, n: int, block: int) returns (cnt: real, mean: real, m2: real)
    requires n > 0 && block > 0
    ensures cnt == n as real && mean == Mean(x, 0, n) && m2 == Spread(x, 0, n, mean)
  {
    hide *;
    cnt, mean, m2 := 0.0, 0.0, 0.0;
    var lo := 0;
    NoColumns(x);
    while lo < n
      invariant 0 <= lo <= n && cnt == lo as real
      invariant Moments(x, lo, mean, m2)
    {
      var hi := if lo + block < n then lo + block else n;
      var tn := (hi - lo) as real;
      var meanC := Mean(x, lo, hi);
      var m2C := Spread(x, lo, hi, meanC);
      var delta := meanC - mean;
      var newCnt := cnt + tn;
      MergeKeepsMoments(x, lo, hi, cnt, mean, m2, tn, meanC, delta, newCnt);
      mean, m2 := mean + delta * (tn / newCnt), m2 + m2C + delta * delta * (cnt * tn / newCnt);
      cnt, lo := newCnt, hi;
    }
    MomentsAreMeanAndSpread(x, n, mean, m2);
  }

  lemma SquareIsNonNegative(a: real)
    ensures a * a >= 0.0
  {
  }

  lemma {:induction false} SpreadIsNonNegative(x: int -> real, lo: int, hi: int, c: real)
    ensures Spread(x, lo, hi, c) >= 0.0
    decreases hi - lo
  {
    if lo < hi {
      SpreadIsNonNegative(x, lo, hi - 1, c);
      SquareIsNonNegative(x(hi - 1) - c);
    }
  }

  /** The argument of rsqrt is positive whenever eps is. */
  lemma VarianceIsNonNegative(x: int -> real, n: int)
    requires n > 0
    ensures Variance(x, n) >= 0.0
  {
    hide Spread;
    SpreadIsNonNegative(x, 0, n, Mean(x, 0, n));
  }

  datatype Problem = Problem(m: nat, n: nat, x: (int, int) -> real, weight: int -> real, bias: int -> real,
                             eps: real, rsqrt: real -> real)

  function RowOf(p: Problem, i: int): int -> real {
    j => p.x(i, j)
  }

  /** Layer norm of one element. */
  function LayerNorm(p: Problem, i: int, j: int): real
    requires p.n > 0
  {
    (p.x(i, j) - Mean(RowOf(p, i), 0, p.n)) * p.rsqrt(Variance(RowOf(p, i), p.n) + p.eps) * p.weight(j) + p.bias(j)
  }

  /** Every entry of row i moved by shift(i). */
  function Shifted(p: Problem, shift: int -> real): Problem {
    p.(x := (i, j) => p.x(i, j) + shift(i))
  }

  lemma {:induction false} SumOfShifted(f: int -> real, g: int -> real, c: real, n: nat)
    requires forall j :: g(j) == f(j) + c
    ensures Sum(g, 0, n) == Sum(f, 0, n) + n as real * c
  {
    if n > 0 {
      SumOfShifted(f, g, c, n - 1);
      assert n as real * c == (n - 1) as real * c + c;
    }
  }

  lemma MeanOfSum(total: real, n: real, c: real)
    requires n > 0.0
    ensures (total + n * c) / n == total / n + c
  {
  }

  lemma ShiftedMean(f: int -> real, g: int -> real, c: real, n: nat)
    requires n > 0 && forall j :: g(j) == f(j) + c
    ensures Mean(g, 0, n) == Mean(f, 0, n) + c
  {
    hide Sum;
    SumOfShifted(f, g, c, n);
    MeanOfSum(Sum(f, 0, n), n as real, c);
  }

  lemma ShiftedVariance(f: int -> real, g: int -> real, c: real, n: nat)
    requires n > 0 && forall j :: g(j) == f(j) + c
    ensures Variance(g, n) == Variance(f, n)
  {
    hide Sum, Mean;
    ShiftedMean(f, g, c, n);
    forall j
      ensures Deviations(g, Mean(g, 0, n))(j) == Deviations(f, Mean(f, 0, n))(j)
    {
      assert g(j) - Mean(g, 0, n) == f(j) - Mean(f, 0, n);
    }
    SumEq(Deviations(g, Mean(g, 0, n)), Deviations(f, Mean(f, 0, n)), 0, n);
  }

  /** Each row is centred on its own mean and scaled by its own spread: no shift of whole rows shows. */
  lemma ShiftsDoNotShow(p: Problem, shift: int -> real, i: int, j: int)
    requires p.n > 0
    ensures LayerNorm(Shifted(p, shift), i, j) == LayerNorm(p, i, j)
  {
    hide Mean, Variance;
    var row, moved := RowOf(p, i), RowOf(Shifted(p, shift), i);
    ShiftedMean(row, moved, shift(i), p.n);
    ShiftedVariance(row, moved, shift(i), p.n);
    assert Shifted(p, shift).x(i, j) - Mean(moved, 0, p.n) == p.x(i, j) - Mean(row, 0, p.n);
  }

  lemma RowVariance(p: Problem, i: int, mean: real, m2: real)
    requires p.n > 0 && mean == Mean(RowOf(p, i), 0, p.n) && m2 == Spread(RowOf(p, i), 0, p.n, mean)
    ensures m2 / p.n as real == Variance(RowOf(p, i), p.n)
  {
    hide Mean, Spread;
  }

  lemma Normalised(p: Problem, i: int, j: int, mean: real, rstd: real, y: real)
    requires p.n > 0 && mean == Mean(RowOf(p, i), 0, p.n) && rstd == p.rsqrt(Variance(RowOf(p, i), p.n) + p.eps)
    requires y == (p.x(i, j) - mean) * rstd * p.weight(j) + p.bias(j)
    ensures y == LayerNorm(p, i, j)
  {
    hide Mean, Variance;
  }

  /** The kernel: every row, for any two tile widths. */
  method Kernel(p: Problem, block1: int, block2: int) returns (out: array2<real>)
    requires p.n > 0 && block1 > 0 && block2 > 0
    ensures out.Length0 == p.m && out.Length1 == p.n
    ensures forall i, j :: 0 <= i < p.m && 0 <= j < p.n ==> out[i, j] == LayerNorm(p, i, j)
  {
    hide Mean, Spread, Sum, RowOf, LayerNorm;
    out := new real[p.m, p.n];
    for i := 0 to p.m
      invariant forall a, b :: 0 <= a < i && 0 <= b < p.n ==> out[a, b] == LayerNorm(p, a, b)
    {
      var cnt, mean, m2 := RowMoments(RowOf(p, i), p.n, block1);
      RowVariance(p, i, mean, m2);
      var rstd := p.rsqrt(m2 / cnt + p.eps);
      var lo := 0;
      while lo < p.n
        invariant 0 <= lo <= p.n
        invariant forall a, b :: 0 <= a < i && 0 <= b < p.n ==> out[a, b] == LayerNorm(p, a, b)
        invariant forall b :: 0 <= b < lo ==> out[i, b] == LayerNorm(p, i, b)
      {
        var hi := if lo + block2 < p.n then lo + block2 else p.n;
        for j := lo to hi
          invariant forall a, b :: 0 <= a < i && 0 <= b < p.n ==> out[a, b] == LayerNorm(p, a, b)
          invariant forall b :: 0 <= b < j ==> out[i, b] == LayerNorm(p, i, b)
        {
          out[i, j] := (p.x(i, j) - mean) * rstd * p.weight(j) + p.bias(j);
          Normalised(p, i, j, mean, rstd, out[i, j]);
        }
        lo := hi;
      }
    }
  }
}
