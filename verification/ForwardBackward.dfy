// How attention, _attention_bwd_preprocess and attention_backward of examples/attention.py fit
// together: the backward pass of a row whose lse and output come from the forward pass.
module ForwardBackward {
  import opened Sums
  import opened Tiling
  import opened OnlineSoftmax
  import F = Attention
  import B = AttentionBackward

  /** exp2 of the scores of query row m. */
  function Exponentials(p: B.Problem, e: real -> real, m: int): int -> real {
    n => e(B.Dot(p.k, p.q, n, m, p.headDim))
  }

  function Probabilities(p: B.Problem, e: real -> real, m: int): int -> real {
    n => B.P(p, e, n, m)
  }

  function ValueTerms(p: B.Problem, e: real -> real, m: int, d: int): int -> real {
    Times(Probabilities(p, e, m), ColumnOf(p.v, d))
  }

  function DsTerms(p: B.Problem, e: real -> real, m: int): int -> real {
    n => B.Ds(p, e, n, m)
  }

  /** The values' products with the row's incoming gradient. */
  function ValueDots(p: B.Problem, m: int): int -> real {
    n => B.Dot(p.v, p.grad, n, m, p.headDim)
  }

  /** P times v . do, the gradient with respect to the probability weighted by it. */
  function MeanTerms(p: B.Problem, e: real -> real, m: int): int -> real {
    Times(Probabilities(p, e, m), ValueDots(p, m))
  }

  /** The row's saved lse is the logarithm of the exponentials of its batch's keys first..last. */
  ghost predicate SavedLse(p: B.Problem, e: real -> real, m: int, first: int, last: int) {
    e(p.lse(m)) == Sum(Exponentials(p, e, m), first, last)
  }

  /** The row's saved output is the softmax average of the values. */
  ghost predicate SavedOutput(p: B.Problem, e: real -> real, m: int, first: int, last: int, out: int -> real) {
    forall d :: 0 <= d < p.headDim ==> out(d) == Sum(ValueTerms(p, e, m, d), first, last)
  }

  /** o * do, summed by _attention_bwd_preprocess. */
  function DeltaTerms(p: B.Problem, m: int, out: int -> real): int -> real {
    Times(out, RowOf(p.grad, m))
  }

  ghost predicate Preprocessed(p: B.Problem, m: int, out: int -> real) {
    p.delta(m) == Sum(DeltaTerms(p, m, out), 0, p.headDim)
  }

  lemma ProbabilityIsShare(p: B.Problem, e: real -> real, n: int, m: int)
    requires IsExp(e)
    ensures Exponentials(p, e, m)(n) == Probabilities(p, e, m)(n) * e(p.lse(m))
    ensures e(p.lse(m)) > 0.0
  {
    hide Sum;
    var score := B.Dot(p.k, p.q, n, m, p.headDim);
    ExpOf(e, score - p.lse(m), p.lse(m), score, e(score));
  }

  lemma Difference(share: real, part: real)
    ensures (share - 1.0) * part == share * part - part
    ensures (1.0 - share) * part == part - share * part
  {
  }

  lemma ShareOfItself(share: real, part: real, total: real)
    requires total == share * part && part == total && total > 0.0
    ensures share == 1.0
  {
    Difference(share, part);
    if share > 1.0 {
      PositiveProduct(share - 1.0, part);
    } else if share < 1.0 {
      PositiveProduct(1.0 - share, part);
    }
  }

  /** The recomputed p_t are the softmax probabilities: they add up to one. */
  lemma ProbabilitiesSumToOne(p: B.Problem, e: real -> real, m: int, first: int, last: int)
    requires IsExp(e) && SavedLse(p, e, m, first, last)
    ensures Sum(Probabilities(p, e, m), first, last) == 1.0
  {
    hide Sum, Exponentials, Probabilities, IsExp;
    forall n
      ensures Exponentials(p, e, m)(n) == Probabilities(p, e, m)(n) * e(p.lse(m))
    {
      ProbabilityIsShare(p, e, n, m);
    }
    ProbabilityIsShare(p, e, 0, m);
    SumScale(Probabilities(p, e, m), Exponentials(p, e, m), e(p.lse(m)), first, last);
    ShareOfItself(Sum(Probabilities(p, e, m), first, last), e(p.lse(m)), Sum(Exponentials(p, e, m), first, last));
  }

  lemma ValueDot(p: B.Problem, m: int, n: int)
    ensures ValueDots(p, m)(n) == Sum(Times(RowOf(p.v, n), RowOf(p.grad, m)), 0, p.headDim)
  {
    hide Sum;
    SumEq(B.DotTerms(p.v, p.grad, n, m), Times(RowOf(p.v, n), RowOf(p.grad, m)), 0, p.headDim);
  }

  /** delta is the mean of v . do under the probabilities. */
  lemma DeltaIsMean(p: B.Problem, e: real -> real, m: int, first: int, last: int, out: int -> real)
    requires SavedOutput(p, e, m, first, last, out) && Preprocessed(p, m, out) && first <= last
    ensures p.delta(m) == Sum(MeanTerms(p, e, m), first, last)
  {
    hide Sum, Times, ValueDots, Probabilities, RowOf, ColumnOf;
    forall n
      ensures ValueDots(p, m)(n) == Sum(Times(RowOf(p.v, n), RowOf(p.grad, m)), 0, p.headDim)
    {
      ValueDot(p, m, n);
    }
    SumAssociates(Probabilities(p, e, m), p.v, RowOf(p.grad, m), out, ValueDots(p, m), first, last, 0, p.headDim);
  }

  lemma Spread(a: real, b: real, c: real)
    ensures a * b == a * (b - c) + a * c
  {
  }

  /**
   * The gradient with respect to the scores of a row adds up to zero over its batch's keys, as it
   * must for a softmax, which no shift of the scores changes.
   */
  lemma DsSumsToZero(p: B.Problem, e: real -> real, m: int, first: int, last: int, out: int -> real)
    requires IsExp(e) && first <= last
    requires SavedLse(p, e, m, first, last) && SavedOutput(p, e, m, first, last, out) && Preprocessed(p, m, out)
    ensures Sum(DsTerms(p, e, m), first, last) == 0.0
  {
    hide Sum, SavedLse, SavedOutput, Preprocessed, B.P, B.Dot;
    ProbabilitiesSumToOne(p, e, m, first, last);
    DeltaIsMean(p, e, m, first, last, out);
    var scaled := (n: int) => Probabilities(p, e, m)(n) * p.delta(m);
    SumScale(Probabilities(p, e, m), scaled, p.delta(m), first, last);
    forall n
      ensures MeanTerms(p, e, m)(n) == DsTerms(p, e, m)(n) + scaled(n)
    {
      Spread(B.P(p, e, n, m), B.Dot(p.v, p.grad, n, m, p.headDim), p.delta(m));
    }
    SumAdd(DsTerms(p, e, m), scaled, MeanTerms(p, e, m), first, last);
  }

  // From the forward kernel.

  /** Backward receives the flattened tensors, k times qk_scale, and the lse of the forward pass. */
  ghost predicate Saved(f: F.Problem, p: B.Problem, b: int, m: int, out: seq<Ext>, lse: Ext)
    requires |out| == f.dim
  {
    && !f.causal && f.keys == p.nDim && f.rows == p.mDim && f.dim == p.headDim
    && (forall d :: p.q(b * p.mDim + m, d) == f.q(b, m, d))
    && (forall n, d :: 0 <= n < p.nDim ==> p.k(b * p.nDim + n, d) == f.k(b, n, d) * f.qkScale)
    && (forall n, d :: 0 <= n < p.nDim ==> p.v(b * p.nDim + n, d) == f.v(b, n, d))
    && lse.Fin? && p.lse(b * p.mDim + m) == lse.v
    && (forall d :: 0 <= d < f.dim ==> out[d].Fin?)
  }

  function Values(out: seq<Ext>): int -> real {
    d => if 0 <= d < |out| && out[d].Fin? then out[d].v else 0.0
  }

  lemma ScoreIsDot(f: F.Problem, p: B.Problem, e: real -> real, b: int, m: int, out: seq<Ext>, lse: Ext, n: int)
    requires |out| == f.dim && Saved(f, p, b, m, out, lse) && 0 <= n < p.nDim
    ensures F.RowScores(f, b, m)(n) == Fin(B.Dot(p.k, p.q, b * p.nDim + n, b * p.mDim + m, p.headDim))
  {
    hide Sum;
    var forward, backward := F.QkTerms(f, b, m, n), B.DotTerms(p.k, p.q, b * p.nDim + n, b * p.mDim + m);
    forall d
      ensures forward(d) == backward(d)
    {
      Regroup(f.k(b, n, d), f.qkScale, f.q(b, m, d));
      Regroup(f.qkScale, f.q(b, m, d), f.k(b, n, d));
    }
    SumEq(forward, backward, 0, p.headDim);
  }

  function WeightedValues(p: B.Problem, e: real -> real, m: int, d: int): int -> real {
    Times(Exponentials(p, e, m), ColumnOf(p.v, d))
  }

  /** The forward kernel's normaliser and numerators are sums over the flattened keys of the batch. */
  lemma ForwardSums(f: F.Problem, p: B.Problem, e: real -> real, b: int, m: int, out: seq<Ext>, lse: Ext, d: int)
    requires |out| == f.dim && Saved(f, p, b, m, out, lse)
    ensures var row, first := b * p.mDim + m, b * p.nDim;
            && Numerator(e, F.RowScores(f, b, m), One(), f.keys) == Sum(Exponentials(p, e, row), first, first + p.nDim)
            && Numerator(e, F.RowScores(f, b, m), Column(F.BatchValues(f, b), d), f.keys)
               == Sum(WeightedValues(p, e, row, d), first, first + p.nDim)
  {
    hide Sum, B.Dot, F.RowScores;
    var s, row, first := F.RowScores(f, b, m), b * p.mDim + m, b * p.nDim;
    forall n | 0 <= n < p.nDim
      ensures Terms(e, s, One(), 0.0)(n) == Exponentials(p, e, row)(n + first)
      ensures Terms(e, s, Column(F.BatchValues(f, b), d), 0.0)(n) == WeightedValues(p, e, row, d)(n + first)
    {
      ScoreIsDot(f, p, e, b, m, out, lse, n);
      assert n + first == first + n;
      assert s(n).v - 0.0 == s(n).v;
    }
    SumShift(Exponentials(p, e, row), Terms(e, s, One(), 0.0), 0, p.nDim, first);
    SumShift(WeightedValues(p, e, row, d), Terms(e, s, Column(F.BatchValues(f, b), d), 0.0), 0, p.nDim, first);
  }

  lemma Quotient(x: real, y: real)
    requires y > 0.0
    ensures x * y / y == x
  {
  }

  lemma AverageIsValueSum(p: B.Problem, e: real -> real, m: int, first: int, last: int, d: int)
    requires IsExp(e) && SavedLse(p, e, m, first, last)
    ensures Sum(Exponentials(p, e, m), first, last) > 0.0
    ensures Sum(WeightedValues(p, e, m, d), first, last) / Sum(Exponentials(p, e, m), first, last)
         == Sum(ValueTerms(p, e, m, d), first, last)
  {
    hide Sum, IsExp, B.P;
    var total := e(p.lse(m));
    forall n
      ensures WeightedValues(p, e, m, d)(n) == ValueTerms(p, e, m, d)(n) * total
    {
      ProbabilityIsShare(p, e, n, m);
      Regroup(B.P(p, e, n, m), total, p.v(n, d));
      Regroup(p.v(n, d), B.P(p, e, n, m), total);
    }
    ProbabilityIsShare(p, e, 0, m);
    SumScale(ValueTerms(p, e, m, d), WeightedValues(p, e, m, d), total, first, last);
    Quotient(Sum(ValueTerms(p, e, m, d), first, last), total);
  }

  /** What the forward kernel stores for a row is what the backward results above need. */
  lemma ForwardIsSaved(f: F.Problem, p: B.Problem, e: real -> real, b: int, m: int, out: seq<Ext>, lse: Ext)
    requires IsExp(e) && |out| == f.dim && Saved(f, p, b, m, out, lse) && p.nDim > 0
    requires F.IsSoftmax(f, e, b, m, out, lse)
    ensures SavedLse(p, e, b * p.mDim + m, b * p.nDim, b * p.nDim + p.nDim)
    ensures SavedOutput(p, e, b * p.mDim + m, b * p.nDim, b * p.nDim + p.nDim, Values(out))
  {
    hide Sum, Numerator, Exponentials, WeightedValues, ValueTerms, IsExp, F.RowScores, F.BatchValues, One, Column;
    var row, first := b * p.mDim + m, b * p.nDim;
    ForwardSums(f, p, e, b, m, out, lse, 0);
    forall d | 0 <= d < p.headDim
      ensures Values(out)(d) == Sum(ValueTerms(p, e, row, d), first, first + p.nDim)
    {
      ForwardSums(f, p, e, b, m, out, lse, d);
      AverageIsValueSum(p, e, row, first, first + p.nDim, d);
    }
  }

  /** Forward, preprocess, backward: the score gradients of every query row add up to zero. */
  lemma RowGradientsSumToZero(f: F.Problem, p: B.Problem, e: real -> real, b: int, m: int, out: seq<Ext>, lse: Ext)
    requires IsExp(e) && |out| == f.dim && Saved(f, p, b, m, out, lse) && p.nDim > 0
    requires F.IsSoftmax(f, e, b, m, out, lse) && Preprocessed(p, b * p.mDim + m, Values(out))
    ensures Sum(Probabilities(p, e, b * p.mDim + m), b * p.nDim, b * p.nDim + p.nDim) == 1.0
    ensures Sum(DsTerms(p, e, b * p.mDim + m), b * p.nDim, b * p.nDim + p.nDim) == 0.0
  {
    hide Sum, IsExp, Saved, Preprocessed, SavedLse, SavedOutput, F.IsSoftmax;
    var row, first := b * p.mDim + m, b * p.nDim;
    ForwardIsSaved(f, p, e, b, m, out, lse);
    ProbabilitiesSumToOne(p, e, row, first, first + p.nDim);
    DsSumsToZero(p, e, row, first, first + p.nDim, Values(out));
  }
}
