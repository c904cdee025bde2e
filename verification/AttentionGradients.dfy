// What dq, dk and dv of attention_backward (examples/attention.py) are for: the gradients of the
// forward pass of the same file. The laws are stated for any three results that hold in a batch
// what the kernel leaves there.
module AttentionGradients {
  import opened Sums
  import opened Tiling
  import opened OnlineSoftmax
  import opened ForwardBackward
  import B = AttentionBackward
  import F = Attention

  /** The results in batch b. */
  ghost predicate IsResult(p: B.Problem, e: real -> real, b: nat,
                           dq: (int, int) -> real, dk: (int, int) -> real, dv: (int, int) -> real)
    requires B.Valid(p)
  {
    && (forall m, d :: b * p.mDim <= m < (b + 1) * p.mDim && 0 <= d < p.headDim ==> dq(m, d) == B.Dq(p, e, m, d))
    && (forall n, d :: b * p.nDim <= n < (b + 1) * p.nDim && 0 <= d < p.headDim
                       ==> dk(n, d) == B.Dk(p, e, n, d) && dv(n, d) == B.Dv(p, e, n, d))
  }

  ghost predicate RowFromForward(p: B.Problem, e: real -> real, b: nat, m: int, out: int -> real) {
    && SavedLse(p, e, m, b * p.nDim, (b + 1) * p.nDim)
    && SavedOutput(p, e, m, b * p.nDim, (b + 1) * p.nDim, out)
    && Preprocessed(p, m, out)
  }

  /** What the backward pass receives for the queries of batch b: lse, output and delta of the forward pass. */
  ghost predicate FromForward(p: B.Problem, e: real -> real, b: nat, out: (int, int) -> real) {
    forall m :: b * p.mDim <= m < (b + 1) * p.mDim ==> RowFromForward(p, e, b, m, RowOf(out, m))
  }

  /** The probabilities and the score gradients as matrices, a key to a row. */
  function PMatrix(p: B.Problem, e: real -> real): (int, int) -> real {
    (n, m) => B.P(p, e, n, m)
  }

  function DsMatrix(p: B.Problem, e: real -> real): (int, int) -> real {
    (n, m) => B.Ds(p, e, n, m)
  }

  lemma RowInBatch(n: int, b: nat, size: nat)
    requires b * size <= n < (b + 1) * size
    ensures size > 0 && n / size == b
  {
    assert (b + 1) * size == b * size + size;
    DivUnique(n, b, size);
  }

  lemma KeyResult(p: B.Problem, e: real -> real, b: nat, dq: (int, int) -> real, dk: (int, int) -> real, dv: (int, int) -> real,
                  n: int, d: int)
    requires B.Valid(p) && IsResult(p, e, b, dq, dk, dv)
    requires b * p.nDim <= n < (b + 1) * p.nDim && 0 <= d < p.headDim
    ensures dk(n, d) == Sum(Times(RowOf(DsMatrix(p, e), n), ColumnOf(p.q, d)), b * p.mDim, (b + 1) * p.mDim) * p.smScale
    ensures dv(n, d) == Sum(Times(RowOf(PMatrix(p, e), n), ColumnOf(p.grad, d)), b * p.mDim, (b + 1) * p.mDim)
  {
    hide Sum, B.Ds, B.P;
    RowInBatch(n, b, p.nDim);
    SumEq(B.DkTerms(p, e, n, d), Times(RowOf(DsMatrix(p, e), n), ColumnOf(p.q, d)), b * p.mDim, (b + 1) * p.mDim);
    SumEq(B.DvTerms(p, e, n, d), Times(RowOf(PMatrix(p, e), n), ColumnOf(p.grad, d)), b * p.mDim, (b + 1) * p.mDim);
  }

  lemma QueryResult(p: B.Problem, e: real -> real, b: nat, dq: (int, int) -> real, dk: (int, int) -> real, dv: (int, int) -> real,
                    m: int, d: int)
    requires B.Valid(p) && IsResult(p, e, b, dq, dk, dv)
    requires b * p.mDim <= m < (b + 1) * p.mDim && 0 <= d < p.headDim
    ensures dq(m, d) == Sum(Times(RowOf(Transposed(DsMatrix(p, e)), m), ColumnOf(p.k, d)), b * p.nDim, (b + 1) * p.nDim) * p.ln2
  {
    hide Sum, B.Ds;
    RowInBatch(m, b, p.mDim);
    SumEq(B.DqTerms(p, e, m, d), Times(RowOf(Transposed(DsMatrix(p, e)), m), ColumnOf(p.k, d)), b * p.nDim, (b + 1) * p.nDim);
  }

  // Totals.

  lemma QueryShares(p: B.Problem, e: real -> real, b: nat, out: (int, int) -> real, m: int)
    requires IsExp(e) && FromForward(p, e, b, out) && b * p.mDim <= m < (b + 1) * p.mDim
    ensures Sum(Times(One(), ColumnOf(PMatrix(p, e), m)), b * p.nDim, (b + 1) * p.nDim) == 1.0
    ensures Sum(Times(One(), ColumnOf(DsMatrix(p, e), m)), b * p.nDim, (b + 1) * p.nDim) == 0.0
  {
    hide Sum, B.Ds, B.P, IsExp, SavedLse, SavedOutput, Preprocessed;
    var first, last := b * p.nDim, (b + 1) * p.nDim;
    assert first <= last by {
      NextMultiple(b, p.nDim);
    }
    assert RowFromForward(p, e, b, m, RowOf(out, m));
    ProbabilitiesSumToOne(p, e, m, first, last);
    DsSumsToZero(p, e, m, first, last, RowOf(out, m));
    SumEq(Probabilities(p, e, m), Times(One(), ColumnOf(PMatrix(p, e), m)), first, last);
    SumEq(DsTerms(p, e, m), Times(One(), ColumnOf(DsMatrix(p, e), m)), first, last);
  }

  /** Every query hands out its whole incoming gradient: dv adds up to it over the keys of the batch. */
  lemma DvSumsToGradient(p: B.Problem, e: real -> real, b: nat, out: (int, int) -> real,
                         dq: (int, int) -> real, dk: (int, int) -> real, dv: (int, int) -> real, d: int)
    requires IsExp(e) && B.Valid(p) && 0 <= d < p.headDim
    requires FromForward(p, e, b, out) && IsResult(p, e, b, dq, dk, dv)
    ensures Sum(ColumnOf(dv, d), b * p.nDim, (b + 1) * p.nDim) == Sum(ColumnOf(p.grad, d), b * p.mDim, (b + 1) * p.mDim)
  {
    hide Sum, FromForward, IsResult, PMatrix, DsMatrix, B.Valid, IsExp;
    var first, last, top, bottom := b * p.nDim, (b + 1) * p.nDim, b * p.mDim, (b + 1) * p.mDim;
    forall m | top <= m < bottom
      ensures One()(m) == Sum(Times(One(), ColumnOf(PMatrix(p, e), m)), first, last)
    {
      QueryShares(p, e, b, out, m);
    }
    forall n | first <= n < last
      ensures ColumnOf(dv, d)(n) == Sum(Times(RowOf(PMatrix(p, e), n), ColumnOf(p.grad, d)), top, bottom)
    {
      KeyResult(p, e, b, dq, dk, dv, n, d);
    }
    SumAssociates(One(), PMatrix(p, e), ColumnOf(p.grad, d), One(), ColumnOf(dv, d), first, last, top, bottom);
    SumEq(Times(One(), ColumnOf(p.grad, d)), ColumnOf(p.grad, d), top, bottom);
    SumEq(Times(One(), ColumnOf(dv, d)), ColumnOf(dv, d), first, last);
  }

  /** A shift common to all keys moves every score of a row alike, so dk adds up to zero. */
  lemma DkSumsToZero(p: B.Problem, e: real -> real, b: nat, out: (int, int) -> real,
                     dq: (int, int) -> real, dk: (int, int) -> real, dv: (int, int) -> real, d: int)
    requires IsExp(e) && B.Valid(p) && 0 <= d < p.headDim
    requires FromForward(p, e, b, out) && IsResult(p, e, b, dq, dk, dv)
    ensures Sum(ColumnOf(dk, d), b * p.nDim, (b + 1) * p.nDim) == 0.0
  {
    hide Sum, FromForward, IsResult, PMatrix, DsMatrix, B.Valid, IsExp;
    var first, last, top, bottom := b * p.nDim, (b + 1) * p.nDim, b * p.mDim, (b + 1) * p.mDim;
    var nothing := (m: int) => 0.0;
    forall m | top <= m < bottom
      ensures nothing(m) == Sum(Times(One(), ColumnOf(DsMatrix(p, e), m)), first, last)
    {
      QueryShares(p, e, b, out, m);
    }
    var plain := (n: int) => Sum(Times(RowOf(DsMatrix(p, e), n), ColumnOf(p.q, d)), top, bottom);
    SumAssociates(One(), DsMatrix(p, e), ColumnOf(p.q, d), nothing, plain, first, last, top, bottom);
    SumZero(Times(nothing, ColumnOf(p.q, d)), top, bottom);
    forall n | first <= n < last
      ensures ColumnOf(dk, d)(n) == Times(One(), plain)(n) * p.smScale
    {
      KeyResult(p, e, b, dq, dk, dv, n, d);
    }
    SumScale(Times(One(), plain), ColumnOf(dk, d), p.smScale, first, last);
  }

  // Inner products.

  /** dk against any matrix of key rows. */
  lemma DkAgainst(p: B.Problem, e: real -> real, b: nat, dq: (int, int) -> real, dk: (int, int) -> real, dv: (int, int) -> real,
                  x: (int, int) -> real)
    requires B.Valid(p) && IsResult(p, e, b, dq, dk, dv)
    ensures Sum(RowDots(x, dk, p.headDim), b * p.nDim, (b + 1) * p.nDim)
         == Sum(RowSums(Weighted(DsMatrix(p, e), x, p.q, p.headDim), b * p.mDim, (b + 1) * p.mDim), b * p.nDim, (b + 1) * p.nDim)
            * p.smScale
  {
    hide *;
    forall n, d | b * p.nDim <= n < (b + 1) * p.nDim && 0 <= d < p.headDim
      ensures dk(n, d) == Sum(Times(RowOf(DsMatrix(p, e), n), ColumnOf(p.q, d)), b * p.mDim, (b + 1) * p.mDim) * p.smScale
    {
      KeyResult(p, e, b, dq, dk, dv, n, d);
    }
    RowsAgainstProduct(x, dk, DsMatrix(p, e), p.q, p.smScale, b * p.nDim, (b + 1) * p.nDim, b * p.mDim, (b + 1) * p.mDim, p.headDim);
  }

  /** dv against any matrix of key rows. */
  lemma DvAgainst(p: B.Problem, e: real -> real, b: nat, dq: (int, int) -> real, dk: (int, int) -> real, dv: (int, int) -> real,
                  x: (int, int) -> real)
    requires B.Valid(p) && IsResult(p, e, b, dq, dk, dv)
    ensures Sum(RowDots(x, dv, p.headDim), b * p.nDim, (b + 1) * p.nDim)
         == Sum(RowSums(Weighted(PMatrix(p, e), x, p.grad, p.headDim), b * p.mDim, (b + 1) * p.mDim), b * p.nDim, (b + 1) * p.nDim)
  {
    hide *;
    forall n, d | b * p.nDim <= n < (b + 1) * p.nDim && 0 <= d < p.headDim
      ensures dv(n, d) == Sum(Times(RowOf(PMatrix(p, e), n), ColumnOf(p.grad, d)), b * p.mDim, (b + 1) * p.mDim) * 1.0
    {
      KeyResult(p, e, b, dq, dk, dv, n, d);
    }
    RowsAgainstProduct(x, dv, PMatrix(p, e), p.grad, 1.0, b * p.nDim, (b + 1) * p.nDim, b * p.mDim, (b + 1) * p.mDim, p.headDim);
  }

  /** dq against any matrix of query rows. */
  lemma DqAgainst(p: B.Problem, e: real -> real, b: nat, dq: (int, int) -> real, dk: (int, int) -> real, dv: (int, int) -> real,
                  x: (int, int) -> real)
    requires B.Valid(p) && IsResult(p, e, b, dq, dk, dv)
    ensures Sum(RowDots(x, dq, p.headDim), b * p.mDim, (b + 1) * p.mDim)
         == Sum(RowSums(Weighted(DsMatrix(p, e), p.k, x, p.headDim), b * p.mDim, (b + 1) * p.mDim), b * p.nDim, (b + 1) * p.nDim)
            * p.ln2
  {
    hide *;
    var ds := DsMatrix(p, e);
    forall m, d | b * p.mDim <= m < (b + 1) * p.mDim && 0 <= d < p.headDim
      ensures dq(m, d) == Sum(Times(RowOf(Transposed(ds), m), ColumnOf(p.k, d)), b * p.nDim, (b + 1) * p.nDim) * p.ln2
    {
      QueryResult(p, e, b, dq, dk, dv, m, d);
    }
    RowsAgainstProduct(x, dq, Transposed(ds), p.k, p.ln2, b * p.mDim, (b + 1) * p.mDim, b * p.nDim, (b + 1) * p.nDim, p.headDim);
    WeightedTransposed(ds, p.k, x, p.headDim, b * p.nDim, (b + 1) * p.nDim, b * p.mDim, (b + 1) * p.mDim);
  }

  /** Scores are bilinear in q and k, so both gradients meet their operand in the same total. */
  lemma DkMeetsDq(p: B.Problem, e: real -> real, b: nat, dq: (int, int) -> real, dk: (int, int) -> real, dv: (int, int) -> real)
    requires B.Valid(p) && IsResult(p, e, b, dq, dk, dv)
    ensures p.ln2 * Sum(RowDots(p.k, dk, p.headDim), b * p.nDim, (b + 1) * p.nDim)
         == p.smScale * Sum(RowDots(p.q, dq, p.headDim), b * p.mDim, (b + 1) * p.mDim)
  {
    hide *;
    DkAgainst(p, e, b, dq, dk, dv, p.k);
    DqAgainst(p, e, b, dq, dk, dv, p.q);
  }

  // The derivative of the forward pass.

  /** A direction in which the inputs move: the slope of every entry. */
  datatype Direction = Direction(q: (int, int) -> real, k: (int, int) -> real, v: (int, int) -> real)

  /** The slope of a score, a product of q and k; p.k holds k times keyScale. */
  function ScoreSlope(p: B.Problem, way: Direction, keyScale: real, n: int, m: int): real {
    Sum(Times(RowOf(way.k, n), RowOf(p.q, m)), 0, p.headDim) * keyScale + Sum(Times(RowOf(p.k, n), RowOf(way.q, m)), 0, p.headDim)
  }

  /** exp2 has slope ln2 * exp2. */
  function WeightSlopes(p: B.Problem, e: real -> real, way: Direction, keyScale: real, m: int): int -> real {
    n => p.ln2 * Exponentials(p, e, m)(n) * ScoreSlope(p, way, keyScale, n, m)
  }

  /** The slope of the sum of exponentials times values. */
  function NumeratorSlope(p: B.Problem, e: real -> real, way: Direction, keyScale: real, m: int, d: int, first: int, last: int): real {
    Sum(Times(WeightSlopes(p, e, way, keyScale, m), ColumnOf(p.v, d)), first, last)
    + Sum(Times(Exponentials(p, e, m), ColumnOf(way.v, d)), first, last)
  }

  /** The slope of out, from out * normaliser == numerator and the rule for products. */
  ghost predicate OutMoves(p: B.Problem, e: real -> real, way: Direction, keyScale: real, m: int, first: int, last: int,
                           out: int -> real, slope: int -> real)
  {
    forall d :: 0 <= d < p.headDim ==>
      slope(d) * Sum(Exponentials(p, e, m), first, last) + out(d) * Sum(WeightSlopes(p, e, way, keyScale, m), first, last)
      == NumeratorSlope(p, e, way, keyScale, m, d, first, last)
  }

  /** The slopes of the weights over the normaliser. */
  function ShareSlopes(p: B.Problem, e: real -> real, way: Direction, keyScale: real, m: int): int -> real {
    n => p.ln2 * Probabilities(p, e, m)(n) * ScoreSlope(p, way, keyScale, n, m)
  }

  lemma Exchange(a: real, b: real, c: real)
    ensures a * b * c == a * c * b
  {
  }

  lemma WeightSlopeIsShare(p: B.Problem, e: real -> real, way: Direction, keyScale: real, m: int, n: int, x: real)
    requires IsExp(e)
    ensures WeightSlopes(p, e, way, keyScale, m)(n) == ShareSlopes(p, e, way, keyScale, m)(n) * e(p.lse(m))
    ensures WeightSlopes(p, e, way, keyScale, m)(n) * x == ShareSlopes(p, e, way, keyScale, m)(n) * x * e(p.lse(m))
    ensures Exponentials(p, e, m)(n) * x == Probabilities(p, e, m)(n) * x * e(p.lse(m))
  {
    hide IsExp, Exponentials, Probabilities, ScoreSlope;
    ProbabilityIsShare(p, e, n, m);
    var share, total, t := Probabilities(p, e, m)(n), e(p.lse(m)), ScoreSlope(p, way, keyScale, n, m);
    calc {
      p.ln2 * (share * total) * t;
      { Regroup(p.ln2, share, total); }
      p.ln2 * share * total * t;
      { Exchange(p.ln2 * share, total, t); }
      p.ln2 * share * t * total;
    }
    Exchange(ShareSlopes(p, e, way, keyScale, m)(n), total, x);
    Exchange(share, total, x);
  }

  lemma CancelTotal(slope: real, out: real, u: real, part: real, other: real, total: real)
    requires total > 0.0
    requires slope * total + out * (u * total) == part * total + other * total
    ensures slope == part + other - out * u
  {
    assert out * (u * total) == out * u * total;
    assert (slope + out * u - part - other) * total == 0.0;
  }

  /** In terms of the probabilities. */
  lemma OutSlopeByShares(p: B.Problem, e: real -> real, way: Direction, keyScale: real, m: int, first: int, last: int,
                         out: int -> real, slope: int -> real, d: int)
    requires IsExp(e) && SavedLse(p, e, m, first, last) && OutMoves(p, e, way, keyScale, m, first, last, out, slope)
    requires 0 <= d < p.headDim
    ensures slope(d) == Sum(Times(ShareSlopes(p, e, way, keyScale, m), ColumnOf(p.v, d)), first, last)
                        + Sum(Times(Probabilities(p, e, m), ColumnOf(way.v, d)), first, last)
                        - out(d) * Sum(ShareSlopes(p, e, way, keyScale, m), first, last)
  {
    hide Sum, IsExp, WeightSlopes, ShareSlopes, Exponentials, Probabilities;
    var total := e(p.lse(m));
    ProbabilityIsShare(p, e, 0, m);
    var weights, shares := WeightSlopes(p, e, way, keyScale, m), ShareSlopes(p, e, way, keyScale, m);
    forall n
      ensures weights(n) == shares(n) * total
      ensures Times(weights, ColumnOf(p.v, d))(n) == Times(shares, ColumnOf(p.v, d))(n) * total
      ensures Times(Exponentials(p, e, m), ColumnOf(way.v, d))(n) == Times(Probabilities(p, e, m), ColumnOf(way.v, d))(n) * total
    {
      WeightSlopeIsShare(p, e, way, keyScale, m, n, p.v(n, d));
      WeightSlopeIsShare(p, e, way, keyScale, m, n, way.v(n, d));
    }
    SumScale(shares, weights, total, first, last);
    SumScale(Times(shares, ColumnOf(p.v, d)), Times(weights, ColumnOf(p.v, d)), total, first, last);
    SumScale(Times(Probabilities(p, e, m), ColumnOf(way.v, d)), Times(Exponentials(p, e, m), ColumnOf(way.v, d)), total, first, last);
    CancelTotal(slope(d), out(d), Sum(shares, first, last), Sum(Times(shares, ColumnOf(p.v, d)), first, last),
                Sum(Times(Probabilities(p, e, m), ColumnOf(way.v, d)), first, last), total);
  }

  function GradientDots(p: B.Problem, v: (int, int) -> real, m: int): int -> real {
    n => Sum(Times(RowOf(v, n), RowOf(p.grad, m)), 0, p.headDim)
  }

  /** What key n contributes to the slope of the loss through query m. */
  function Gains(p: B.Problem, e: real -> real, way: Direction, keyScale: real): (int, int) -> real {
    (n, m) => DsMatrix(p, e)(n, m) * (p.ln2 * ScoreSlope(p, way, keyScale, n, m)) + PMatrix(p, e)(n, m) * GradientDots(p, way.v, m)(n)
  }

  lemma SlopeTerm(grad: real, part: real, other: real, out: real, u: real)
    ensures grad * (part + other - out * u) == part * grad * 1.0 + out * grad * (-u) + other * grad
  {
  }

  lemma GainTerm(ln2: real, share: real, t: real, dots: real, delta: real)
    ensures share * (dots - delta) * (ln2 * t) == ln2 * share * t * dots + ln2 * share * t * (-delta)
  {
    var u := share * (ln2 * t);
    assert u == ln2 * share * t;
    assert share * (dots - delta) * (ln2 * t) == u * (dots - delta);
  }

  lemma GainOfKey(p: B.Problem, e: real -> real, way: Direction, keyScale: real, m: int, n: int)
    ensures ColumnOf(Gains(p, e, way, keyScale), m)(n)
         == Times(ShareSlopes(p, e, way, keyScale, m), GradientDots(p, p.v, m))(n) * 1.0
            + ShareSlopes(p, e, way, keyScale, m)(n) * (-p.delta(m))
            + Times(Probabilities(p, e, m), GradientDots(p, way.v, m))(n)
  {
    hide Sum, ScoreSlope, B.P;
    assert B.Dot(p.v, p.grad, n, m, p.headDim) == GradientDots(p, p.v, m)(n) by {
      SumEq(B.DotTerms(p.v, p.grad, n, m), Times(RowOf(p.v, n), RowOf(p.grad, m)), 0, p.headDim);
    }
    var share, t, dots := B.P(p, e, n, m), ScoreSlope(p, way, keyScale, n, m), GradientDots(p, p.v, m)(n);
    assert DsMatrix(p, e)(n, m) == share * (dots - p.delta(m));
    GainTerm(p.ln2, share, t, dots, p.delta(m));
    assert Probabilities(p, e, m)(n) == share;
  }

  lemma TimesAt(f: int -> real, g: int -> real, i: int)
    ensures Times(f, g)(i) == f(i) * g(i)
  {
  }

  lemma DeltaOf(p: B.Problem, m: int, out: int -> real)
    requires Preprocessed(p, m, out)
    ensures p.delta(m) == Sum(Times(out, RowOf(p.grad, m)), 0, p.headDim)
  {
  }

  lemma RowParts(p: B.Problem, m: int, first: int, last: int, weights: int -> real, v: (int, int) -> real, part: int -> real)
    requires forall d :: 0 <= d < p.headDim ==> part(d) == Sum(Times(weights, ColumnOf(v, d)), first, last)
    ensures Sum(Times(part, RowOf(p.grad, m)), 0, p.headDim) == Sum(Times(weights, GradientDots(p, v, m)), first, last)
  {
    hide Sum, Times;
    SumAssociates(weights, v, RowOf(p.grad, m), part, GradientDots(p, v, m), first, last, 0, p.headDim);
  }

  /** The slope of one query row's part of the loss. */
  lemma RowGain(p: B.Problem, e: real -> real, way: Direction, keyScale: real, m: int, first: int, last: int,
                out: int -> real, slope: int -> real)
    requires IsExp(e) && SavedLse(p, e, m, first, last) && Preprocessed(p, m, out)
    requires OutMoves(p, e, way, keyScale, m, first, last, out, slope)
    ensures Sum(Times(RowOf(p.grad, m), slope), 0, p.headDim) == Sum(ColumnOf(Gains(p, e, way, keyScale), m), first, last)
  {
    hide *;
    var shares, grad, u := ShareSlopes(p, e, way, keyScale, m), RowOf(p.grad, m), Sum(ShareSlopes(p, e, way, keyScale, m), first, last);
    var part := (d: int) => Sum(Times(shares, ColumnOf(p.v, d)), first, last);
    var other := (d: int) => Sum(Times(Probabilities(p, e, m), ColumnOf(way.v, d)), first, last);
    forall d | 0 <= d < p.headDim
      ensures Times(grad, slope)(d) == Times(part, grad)(d) * 1.0 + Times(out, grad)(d) * (-u) + Times(other, grad)(d)
    {
      OutSlopeByShares(p, e, way, keyScale, m, first, last, out, slope, d);
      SlopeTerm(grad(d), part(d), other(d), out(d), u);
      TimesAt(grad, slope, d);
      TimesAt(part, grad, d);
      TimesAt(out, grad, d);
      TimesAt(other, grad, d);
    }
    SumCombine(Times(part, grad), Times(out, grad), Times(other, grad), Times(grad, slope), 1.0, -u, 0, p.headDim);
    RowParts(p, m, first, last, shares, p.v, part);
    RowParts(p, m, first, last, Probabilities(p, e, m), way.v, other);
    forall n | first <= n < last
      ensures ColumnOf(Gains(p, e, way, keyScale), m)(n)
           == Times(shares, GradientDots(p, p.v, m))(n) * 1.0 + shares(n) * (-p.delta(m))
              + Times(Probabilities(p, e, m), GradientDots(p, way.v, m))(n)
    {
      GainOfKey(p, e, way, keyScale, m, n);
    }
    SumCombine(Times(shares, GradientDots(p, p.v, m)), shares, Times(Probabilities(p, e, m), GradientDots(p, way.v, m)),
               ColumnOf(Gains(p, e, way, keyScale), m), 1.0, -p.delta(m), first, last);
    DeltaOf(p, m, out);
    assert p.delta(m) * (-u) == u * (-p.delta(m));
  }

  /** All queries of the batch move along with the inputs. */
  ghost predicate BatchMoves(p: B.Problem, e: real -> real, b: nat, way: Direction, keyScale: real,
                             out: (int, int) -> real, slope: (int, int) -> real)
  {
    forall m :: b * p.mDim <= m < (b + 1) * p.mDim
                ==> OutMoves(p, e, way, keyScale, m, b * p.nDim, (b + 1) * p.nDim, RowOf(out, m), RowOf(slope, m))
  }

  lemma RowGainInBatch(p: B.Problem, e: real -> real, b: nat, way: Direction, keyScale: real,
                       out: (int, int) -> real, slope: (int, int) -> real, m: int)
    requires IsExp(e) && FromForward(p, e, b, out) && BatchMoves(p, e, b, way, keyScale, out, slope)
    requires b * p.mDim <= m < (b + 1) * p.mDim
    ensures RowDots(p.grad, slope, p.headDim)(m) == Sum(ColumnOf(Gains(p, e, way, keyScale), m), b * p.nDim, (b + 1) * p.nDim)
  {
    hide SavedLse, SavedOutput, Preprocessed, IsExp, OutMoves, Sum, Gains;
    assert RowFromForward(p, e, b, m, RowOf(out, m));
    RowGain(p, e, way, keyScale, m, b * p.nDim, (b + 1) * p.nDim, RowOf(out, m), RowOf(slope, m));
  }

  lemma SplitGain(ln2: real, keyScale: real, factor: real, ds: real, keyDot: real, queryDot: real)
    requires factor == ln2 * keyScale
    ensures ds * (ln2 * (keyDot * keyScale + queryDot)) == ds * keyDot * factor + ds * queryDot * ln2
  {
    assert ln2 * (keyDot * keyScale) == keyDot * factor;
    assert ln2 * (keyDot * keyScale + queryDot) == keyDot * factor + queryDot * ln2;
    assert ds * (keyDot * factor) == ds * keyDot * factor;
    assert ds * (queryDot * ln2) == ds * queryDot * ln2;
  }

  /** The gains of a key, by the input that moves. */
  lemma GainsOfKey(p: B.Problem, e: real -> real, way: Direction, keyScale: real, factor: real,
                    n: int, top: int, bottom: int)
    requires factor == p.ln2 * keyScale
    ensures Sum(RowOf(Gains(p, e, way, keyScale), n), top, bottom)
         == RowSums(Weighted(DsMatrix(p, e), way.k, p.q, p.headDim), top, bottom)(n) * factor
            + RowSums(Weighted(DsMatrix(p, e), p.k, way.q, p.headDim), top, bottom)(n) * p.ln2
            + RowSums(Weighted(PMatrix(p, e), way.v, p.grad, p.headDim), top, bottom)(n)
  {
    hide Sum, DsMatrix, PMatrix;
    forall m
      ensures RowOf(Gains(p, e, way, keyScale), n)(m)
           == RowOf(Weighted(DsMatrix(p, e), way.k, p.q, p.headDim), n)(m) * factor
              + RowOf(Weighted(DsMatrix(p, e), p.k, way.q, p.headDim), n)(m) * p.ln2
              + RowOf(Weighted(PMatrix(p, e), way.v, p.grad, p.headDim), n)(m)
    {
      SplitGain(p.ln2, keyScale, factor, DsMatrix(p, e)(n, m),
                Sum(Times(RowOf(way.k, n), RowOf(p.q, m)), 0, p.headDim), Sum(Times(RowOf(p.k, n), RowOf(way.q, m)), 0, p.headDim));
    }
    SumCombine(RowOf(Weighted(DsMatrix(p, e), way.k, p.q, p.headDim), n), RowOf(Weighted(DsMatrix(p, e), p.k, way.q, p.headDim), n),
               RowOf(Weighted(PMatrix(p, e), way.v, p.grad, p.headDim), n), RowOf(Gains(p, e, way, keyScale), n),
               factor, p.ln2, top, bottom);
  }

  /**
   * The backward pass is the transpose of the derivative of the forward pass: in whatever direction
   * q, k and v move, the slope of out weighed with the incoming gradient is what dq, dk and dv say it is.
   * `keyScale` is the factor of k in p.k, sm_scale * log2(e); dk is off by ln2 * log2(e), which is 1 but for
   * the digits of the two constants.
   */
  lemma GradientsAreDerivative(p: B.Problem, e: real -> real, b: nat, out: (int, int) -> real,
                               dq: (int, int) -> real, dk: (int, int) -> real, dv: (int, int) -> real,
                               way: Direction, keyScale: real, slope: (int, int) -> real)
    requires IsExp(e) && B.Valid(p)
    requires FromForward(p, e, b, out) && IsResult(p, e, b, dq, dk, dv)
    requires BatchMoves(p, e, b, way, keyScale, out, slope)
    ensures var total := Sum(RowDots(p.grad, slope, p.headDim), b * p.mDim, (b + 1) * p.mDim);
            var byQ := Sum(RowDots(way.q, dq, p.headDim), b * p.mDim, (b + 1) * p.mDim);
            var byK := Sum(RowDots(way.k, dk, p.headDim), b * p.nDim, (b + 1) * p.nDim);
            var byV := Sum(RowDots(way.v, dv, p.headDim), b * p.nDim, (b + 1) * p.nDim);
            && p.smScale * (total - byQ - byV) == p.ln2 * keyScale * byK
            && (p.ln2 * keyScale == p.smScale ==> total == byQ + byK + byV)
  {
    hide *;
    var first, last, top, bottom := b * p.nDim, (b + 1) * p.nDim, b * p.mDim, (b + 1) * p.mDim;
    var gains, dim := Gains(p, e, way, keyScale), p.headDim;
    var ds, share := DsMatrix(p, e), PMatrix(p, e);
    forall m | top <= m < bottom
      ensures RowDots(p.grad, slope, dim)(m) == Sum(ColumnOf(gains, m), first, last)
    {
      RowGainInBatch(p, e, b, way, keyScale, out, slope, m);
    }
    var rows := (n: int) => Sum(RowOf(gains, n), top, bottom);
    SumSwap(gains, rows, RowDots(p.grad, slope, dim), first, last, top, bottom);
    var factor := p.ln2 * keyScale;
    var byK, byQ := RowSums(Weighted(ds, way.k, p.q, dim), top, bottom), RowSums(Weighted(ds, p.k, way.q, dim), top, bottom);
    var byV := RowSums(Weighted(share, way.v, p.grad, dim), top, bottom);
    forall n | first <= n < last
      ensures rows(n) == byK(n) * factor + byQ(n) * p.ln2 + byV(n)
    {
      GainsOfKey(p, e, way, keyScale, factor, n, top, bottom);
    }
    SumCombine(byK, byQ, byV, rows, factor, p.ln2, first, last);
    DkAgainst(p, e, b, dq, dk, dv, way.k);
    DqAgainst(p, e, b, dq, dk, dv, way.q);
    DvAgainst(p, e, b, dq, dk, dv, way.v);
    Regroup(p.smScale, Sum(byK, first, last), factor);
    Regroup(Sum(byK, first, last), factor, p.smScale);
  }

  /** The slopes of out as quotients. */
  function QuotientSlope(p: B.Problem, e: real -> real, b: nat, way: Direction, keyScale: real, out: (int, int) -> real, m: int, d: int): real {
    var first, last := b * p.nDim, (b + 1) * p.nDim;
    var total := Sum(Exponentials(p, e, m), first, last);
    if total == 0.0 then 0.0
    else (NumeratorSlope(p, e, way, keyScale, m, d, first, last) - out(m, d) * Sum(WeightSlopes(p, e, way, keyScale, m), first, last)) / total
  }

  function QuotientSlopes(p: B.Problem, e: real -> real, b: nat, way: Direction, keyScale: real, out: (int, int) -> real): (int, int) -> real {
    (m, d) => QuotientSlope(p, e, b, way, keyScale, out, m, d)
  }

  /** The slopes exist: out moves by the rule for quotients. */
  lemma QuotientsMove(p: B.Problem, e: real -> real, b: nat, way: Direction, keyScale: real, out: (int, int) -> real)
    requires IsExp(e) && FromForward(p, e, b, out)
    ensures BatchMoves(p, e, b, way, keyScale, out, QuotientSlopes(p, e, b, way, keyScale, out))
  {
  }

  // From the forward kernel.

  /** The outputs of a batch as one matrix over the flattened rows. */
  function Outputs(p: B.Problem, b: nat, rows: int -> seq<Ext>): (int, int) -> real {
    (m, d) => Values(rows(m - b * p.mDim))(d)
  }

  /** What the forward kernel stores for the rows of a batch, with its preprocessing, is what the laws above need. */
  lemma ForwardIsReceived(f: F.Problem, p: B.Problem, e: real -> real, b: nat, rows: int -> seq<Ext>, lses: int -> Ext)
    requires IsExp(e) && p.nDim > 0
    requires forall i :: 0 <= i < p.mDim ==>
               && |rows(i)| == f.dim && Saved(f, p, b, i, rows(i), lses(i)) && F.IsSoftmax(f, e, b, i, rows(i), lses(i))
               && Preprocessed(p, b * p.mDim + i, Values(rows(i)))
    ensures FromForward(p, e, b, Outputs(p, b, rows))
  {
    hide Saved, F.IsSoftmax, Sum, SavedLse, IsExp, Values, Exponentials, ValueTerms;
    assert b * p.nDim + p.nDim == (b + 1) * p.nDim && b * p.mDim + p.mDim == (b + 1) * p.mDim;
    forall m | b * p.mDim <= m < (b + 1) * p.mDim
      ensures RowFromForward(p, e, b, m, RowOf(Outputs(p, b, rows), m))
    {
      var i := m - b * p.mDim;
      ForwardIsSaved(f, p, e, b, i, rows(i), lses(i));
      SumEq(DeltaTerms(p, m, Values(rows(i))), DeltaTerms(p, m, RowOf(Outputs(p, b, rows), m)), 0, p.headDim);
    }
  }
}
