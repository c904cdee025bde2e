// The chunked forward pass of examples/fused_linear_jsd.py. The loss and its gradient with
// respect to the logits are arbitrary per-row functions.
module FusedJsd {
  import opened Sums
  import opened Tiling

  function IncFactor(vocab: nat, hidden: nat): (inc: nat)
    requires hidden > 0
    ensures inc >= 1
  {
    if Cdiv(vocab, hidden) > 1 then Cdiv(vocab, hidden) else 1
  }

  lemma StopsAtPrevPowerOf2(limit: nat, e: nat)
    requires e > 0 ==> Pow2(e) <= limit
    requires limit < 2 * Pow2(e)
    ensures Pow2(e) == PrevPowerOf2(limit)
  {
    if limit >= 1 {
      PrevPowerOf2IsGreatest(limit, e);
      if limit > 1 {
        BitLengthBrackets(limit);
        var f := BitLength(limit) - 1;
        Pow2Reflects(f, e + 1);
        Pow2Monotone(f, e);
      }
    }
  }

  lemma QuotientWithin(batch: nat, inc: nat)
    requires inc >= 1
    ensures batch / inc <= batch && batch / inc * inc <= batch
  {
    if batch / inc > batch {
      MulMonotone(1, inc, batch / inc);
    }
  }

  /** The doubling loop, and the clamp after it, find the largest power of two within batch // inc. */
  method ChunkSize(batch: nat, hidden: nat, vocab: nat) returns (chunk: nat)
    requires hidden > 0
    ensures chunk == PrevPowerOf2(batch / IncFactor(vocab, hidden)) >= 1
  {
    var inc := IncFactor(vocab, hidden);
    var limit := batch / inc;
    chunk := 1;
    ghost var e: nat := 0;
    while chunk * 2 <= limit
      invariant chunk == Pow2(e) && chunk >= 1
      invariant e > 0 ==> chunk <= limit
      decreases limit - chunk
    {
      chunk := chunk * 2;
      e := e + 1;
    }
    StopsAtPrevPowerOf2(limit, e);
    QuotientWithin(batch, inc);
    chunk := if chunk < batch then chunk else batch;
    chunk := if 1 > chunk then 1 else chunk;
  }

  lemma Fits(batch: int, hidden: nat, vocab: nat, inc: nat, limit: nat, chunk: int)
    requires chunk <= limit && limit * inc <= batch && vocab <= inc * hidden
    ensures chunk * vocab <= batch * hidden
  {
    calc <= {
      chunk * vocab;
      { MulMonotone(chunk, limit, vocab); }
      limit * vocab;
      { MulMonotone(vocab, inc * hidden, limit); }
      inc * hidden * limit;
      limit * inc * hidden;
      { MulMonotone(limit * inc, batch, hidden); }
      batch * hidden;
    }
  }

  lemma AtLeastOne(batch: nat, inc: nat)
    requires 1 <= inc <= batch
    ensures batch / inc >= 1
  {
  }

  lemma SmallBatch(batch: nat, inc: nat)
    requires batch < inc
    ensures PrevPowerOf2(batch / inc) == 1
  {
  }

  /**
   * The point of chunking: a chunk of logits is no larger than the input, exactly when the
   * batch has at least inc_factor rows. Below that even single rows are larger.
   */
  lemma ChunkFitsIff(batch: nat, hidden: nat, vocab: nat)
    requires hidden > 0 && vocab > 0
    ensures PrevPowerOf2(batch / IncFactor(vocab, hidden)) * vocab <= batch * hidden
       <==> batch >= IncFactor(vocab, hidden)
  {
    hide PrevPowerOf2, Cdiv;
    var inc := IncFactor(vocab, hidden);
    CdivCovers(vocab, hidden);
    if batch >= inc {
      AtLeastOne(batch, inc);
      QuotientWithin(batch, inc);
      PrevPowerOf2IsGreatest(batch / inc, 0);
      MulMonotone(Cdiv(vocab, hidden), inc, hidden);
      Fits(batch, hidden, vocab, inc, batch / inc, PrevPowerOf2(batch / inc));
    } else {
      SmallBatch(batch, inc);
      MulMonotone(batch, inc - 1, hidden);
    }
  }

  /** Row i: its loss, its gradient with respect to logit v, its student input; the student weight. */
  datatype Problem = Problem(batch: nat, hidden: nat, vocab: nat, loss: int -> real, grad: (int, int) -> real,
                             input: (int, int) -> real, weight: (int, int) -> real)

  /** Dividing by an empty batch gives NaN. */
  datatype Loss = NaN | Loss(value: real)

  function InputTerms(p: Problem, i: int, h: int): int -> real {
    v => p.grad(i, v) * p.weight(v, h)
  }

  function WeightTerms(p: Problem, v: int, h: int): int -> real {
    i => p.grad(i, v) * p.input(i, h)
  }

  /** (grad_logits @ weight)[i, h] over the whole batch. */
  function GradInput(p: Problem, i: int, h: int): real {
    Sum(InputTerms(p, i, h), 0, p.vocab)
  }

  /** (grad_logits.T @ input)[v, h] over rows [0, rows). */
  function GradWeight(p: Problem, rows: int, v: int, h: int): real {
    Sum(WeightTerms(p, v, h), 0, rows)
  }

  function GradInputs(p: Problem): (int, int) -> real {
    (i, h) => GradInput(p, i, h)
  }

  function GradWeights(p: Problem): (int, int) -> real {
    (v, h) => GradWeight(p, p.batch, v, h)
  }

  lemma InputRow(p: Problem, i: int, h: int)
    ensures GradInputs(p)(i, h) == Sum(Times(RowOf(p.grad, i), ColumnOf(p.weight, h)), 0, p.vocab) * 1.0
  {
    hide Sum;
    SumEq(InputTerms(p, i, h), Times(RowOf(p.grad, i), ColumnOf(p.weight, h)), 0, p.vocab);
  }

  lemma WeightRow(p: Problem, v: int, h: int)
    ensures GradWeights(p)(v, h) == Sum(Times(RowOf(Transposed(p.grad), v), ColumnOf(p.input, h)), 0, p.batch) * 1.0
  {
    hide Sum;
    SumEq(WeightTerms(p, v, h), Times(RowOf(Transposed(p.grad), v), ColumnOf(p.input, h)), 0, p.batch);
  }

  /**
   * The gradients are those of the logits input @ weight.T weighed with grad: whatever way input and weight
   * move, by the rule for products the weighed logits change by what the two gradients say.
   */
  lemma GradientsOfLogits(p: Problem, input: (int, int) -> real, weight: (int, int) -> real)
    ensures Sum(RowDots(input, GradInputs(p), p.hidden), 0, p.batch)
         == Sum(RowSums(Weighted(p.grad, input, p.weight, p.hidden), 0, p.vocab), 0, p.batch)
    ensures Sum(RowDots(weight, GradWeights(p), p.hidden), 0, p.vocab)
         == Sum(RowSums(Weighted(p.grad, p.input, weight, p.hidden), 0, p.vocab), 0, p.batch)
  {
    hide *;
    forall i, h
      ensures GradInputs(p)(i, h) == Sum(Times(RowOf(p.grad, i), ColumnOf(p.weight, h)), 0, p.vocab) * 1.0
    {
      InputRow(p, i, h);
    }
    forall v, h
      ensures GradWeights(p)(v, h) == Sum(Times(RowOf(Transposed(p.grad), v), ColumnOf(p.input, h)), 0, p.batch) * 1.0
    {
      WeightRow(p, v, h);
    }
    RowsAgainstProduct(input, GradInputs(p), p.grad, p.weight, 1.0, 0, p.batch, 0, p.vocab, p.hidden);
    RowsAgainstProduct(weight, GradWeights(p), Transposed(p.grad), p.input, 1.0, 0, p.vocab, 0, p.batch, p.hidden);
    WeightedTransposed(p.grad, p.input, weight, p.hidden, 0, p.batch, 0, p.vocab);
  }

  /** Adds one chunk's grad_logits.T @ input to the accumulator. */
  method AddChunk(p: Problem, gradWeight: array2<real>, lo: nat, hi: nat)
    requires gradWeight.Length0 == p.vocab && gradWeight.Length1 == p.hidden && lo <= hi
    requires forall v, h :: 0 <= v < p.vocab && 0 <= h < p.hidden ==> gradWeight[v, h] == GradWeight(p, lo, v, h)
    modifies gradWeight
    ensures forall v, h :: 0 <= v < p.vocab && 0 <= h < p.hidden ==> gradWeight[v, h] == GradWeight(p, hi, v, h)
  {
    hide Sum, WeightTerms;
    forall v, h | 0 <= v < p.vocab && 0 <= h < p.hidden
      ensures gradWeight[v, h] + Sum(WeightTerms(p, v, h), lo, hi) == GradWeight(p, hi, v, h)
    {
      SumSplit(WeightTerms(p, v, h), 0, lo, hi);
    }
    forall v, h | 0 <= v < p.vocab && 0 <= h < p.hidden {
      gradWeight[v, h] := gradWeight[v, h] + Sum(WeightTerms(p, v, h), lo, hi);
    }
  }

  lemma ChunksAreNatural(batch: nat, chunk: nat)
    requires chunk >= 1
    ensures Cdiv(batch, chunk) >= 0
  {
  }

  /** FusedLinearJSDFunction.forward: chunk by chunk, the unchunked loss and gradients. */
  method Forward(p: Problem) returns (loss: Loss, gradInput: array2<real>, gradWeight: array2<real>)
    requires p.hidden > 0
    ensures loss == if p.batch == 0 then NaN else Loss(Sum(p.loss, 0, p.batch) / p.batch as real)
    ensures gradInput.Length0 == p.batch && gradInput.Length1 == p.hidden
    ensures gradWeight.Length0 == p.vocab && gradWeight.Length1 == p.hidden
    ensures forall i, h :: 0 <= i < p.batch && 0 <= h < p.hidden ==> gradInput[i, h] == GradInput(p, i, h)
    ensures forall v, h :: 0 <= v < p.vocab && 0 <= h < p.hidden ==> gradWeight[v, h] == GradWeight(p, p.batch, v, h)
  {
    hide GradInput, PrevPowerOf2, Cdiv;
    var chunk := ChunkSize(p.batch, p.hidden, p.vocab);
    var chunks := Cdiv(p.batch, chunk);
    CdivCovers(p.batch, chunk);
    ChunksAreNatural(p.batch, chunk);
    gradInput := new real[p.batch, p.hidden]((i, h) => 0.0);
    gradWeight := new real[p.vocab, p.hidden]((i, h) => 0.0);
    var total := 0.0;
    var done := 0;
    for id := 0 to chunks
      invariant done == (if id * chunk < p.batch then id * chunk else p.batch)
      invariant total == Sum(p.loss, 0, done)
      invariant forall i, h :: 0 <= i < done && 0 <= h < p.hidden ==> gradInput[i, h] == GradInput(p, i, h)
      invariant forall v, h :: 0 <= v < p.vocab && 0 <= h < p.hidden ==> gradWeight[v, h] == GradWeight(p, done, v, h)
    {
      var start := id * chunk;
      MulMonotone(0, id, chunk);
      MulMonotone(id, chunks - 1, chunk);
      NextMultiple(id, chunk);
      var end := if (id + 1) * chunk < p.batch then (id + 1) * chunk else p.batch;
      SumSplit(p.loss, 0, start, end);
      total := total + Sum(p.loss, start, end);
      forall i, h | start <= i < end && 0 <= h < p.hidden {
        gradInput[i, h] := GradInput(p, i, h);
      }
      AddChunk(p, gradWeight, start, end);
      done := end;
    }
    loss := if p.batch == 0 then NaN else Loss(total / p.batch as real);
  }
}
