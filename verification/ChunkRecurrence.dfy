// What chunking is for: examples/mamba2_chunk_state.py and examples/mamba2_chunk_scan.py compute, chunk
// by chunk, the recurrence h(t) = exp(decay(t)) * h(t - 1) + dt(t) * x(t) * B(t), read out by C.
module ChunkRecurrence {
  import opened Sums
  import opened Tiling
  import opened OnlineSoftmax
  import S = ChunkScan
  import U = ChunkState

  /** B, and the decay of every step. */
  datatype Steps = Steps(b: (int, int, int) -> real, decay: int -> real)

  /** The recurrence at one entry of the state, from the initial state prev(0). */
  function State(p: S.Problem, q: Steps, group: int, s: int, t: int): real
    requires p.chunkSize > 0
    decreases t
  {
    if t < 0 then p.prev(0, s)
    else p.exp(q.decay(t)) * State(p, q, group, s, t - 1) + p.dt(t / p.chunkSize, t % p.chunkSize) * p.x(t) * q.b(t, group, s)
  }

  function StateAt(p: S.Problem, q: Steps, group: int, t: int): int -> real
    requires p.chunkSize > 0
  {
    s => State(p, q, group, s, t)
  }

  function ReadOut(p: S.Problem, group: int, t: int): int -> real {
    s => p.c(t, group, s)
  }

  function WriteIn(q: Steps, group: int, t: int): int -> real {
    s => q.b(t, group, s)
  }

  /** The decays of the positions begin..begin + m. */
  function Total(q: Steps, begin: int, m: int): real {
    Sum(q.decay, begin, begin + m + 1)
  }

  /** dA_cumsum: sums of decays within a chunk. */
  ghost predicate IsCumsum(p: S.Problem, q: Steps) {
    forall chunk: nat, m :: chunk < p.nchunks && 0 <= m < p.chunkSize
                            ==> p.cumsum(chunk, m) == Total(q, U.Position(p, chunk, 0), m)
  }

  /** cb: C of a row times B of a column. */
  ghost predicate IsCb(p: S.Problem, q: Steps, group: int) {
    forall chunk: nat, m, k :: chunk < p.nchunks && 0 <= k <= m < p.chunkSize ==>
      p.cb(chunk, group, m, k)
      == Sum(Times(ReadOut(p, group, U.Position(p, chunk, m)), WriteIn(q, group, U.Position(p, chunk, k))), 0, p.dstate)
  }

  /** prev_states: each chunk decays the state it gets and adds its own. */
  ghost predicate IsPassed(p: S.Problem, q: Steps)
    requires S.Valid(p)
  {
    forall chunk: nat, s :: chunk + 1 < p.nchunks && 0 <= s < p.dstate ==>
      p.prev(chunk + 1, s) == p.exp(p.cumsum(chunk, p.chunkSize - 1)) * p.prev(chunk, s) + U.Reference(p, q.b, chunk, s)
  }

  // Inside a chunk.

  /** What position begin + k adds to the state at position begin + m. */
  function ScanTerms(p: S.Problem, q: Steps, group: int, s: int, chunk: int, begin: int, m: int): int -> real {
    k => S.Decay(p, Total(q, begin, m), Total(q, begin, k)) * p.dt(chunk, k) * p.x(begin + k) * q.b(begin + k, group, s)
  }

  lemma ExpOfStep(p: S.Problem, q: Steps, begin: int, m: int)
    requires IsExp(p.exp) && m >= 0
    ensures p.exp(Total(q, begin, m)) == p.exp(q.decay(begin + m)) * p.exp(Total(q, begin, m - 1))
    ensures S.Decay(p, Total(q, begin, m), Total(q, begin, m)) == 1.0
    ensures p.exp(Total(q, begin, -1)) == 1.0
  {
    hide IsExp;
    assert Total(q, begin, m) == Total(q, begin, m - 1) + q.decay(begin + m);
    ExpOf(p.exp, q.decay(begin + m), Total(q, begin, m - 1), Total(q, begin, m), p.exp(Total(q, begin, m)));
    ExpOfZero(p.exp, Total(q, begin, m) - Total(q, begin, m));
    ExpOfZero(p.exp, Total(q, begin, -1));
  }

  lemma DecayOfStep(p: S.Problem, q: Steps, begin: int, m: int, k: int)
    requires IsExp(p.exp) && m >= 0
    ensures S.Decay(p, Total(q, begin, m), Total(q, begin, k))
         == S.Decay(p, Total(q, begin, m - 1), Total(q, begin, k)) * p.exp(q.decay(begin + m))
  {
    hide IsExp;
    var earlier, later := Total(q, begin, m - 1) - Total(q, begin, k), Total(q, begin, m) - Total(q, begin, k);
    assert Total(q, begin, m) == Total(q, begin, m - 1) + q.decay(begin + m);
    ExpOf(p.exp, earlier, q.decay(begin + m), later, p.exp(later));
  }

  lemma Reorder(decay: real, step: real, dt: real, x: real, b: real)
    ensures decay * step * dt * x * b == decay * dt * x * b * step
  {
    Regroup(decay, step, dt);
    Regroup(dt * decay, step, x * b);
    assert decay * step * dt * x * b == step * (decay * dt * x * b);
  }

  lemma ScanTermsDecay(p: S.Problem, q: Steps, group: int, s: int, chunk: int, begin: int, m: int)
    requires IsExp(p.exp) && m >= 0
    ensures Sum(ScanTerms(p, q, group, s, chunk, begin, m), 0, m)
         == Sum(ScanTerms(p, q, group, s, chunk, begin, m - 1), 0, m) * p.exp(q.decay(begin + m))
  {
    hide Sum, IsExp, Total, S.Decay;
    var step := p.exp(q.decay(begin + m));
    forall k
      ensures ScanTerms(p, q, group, s, chunk, begin, m)(k) == ScanTerms(p, q, group, s, chunk, begin, m - 1)(k) * step
    {
      DecayOfStep(p, q, begin, m, k);
      Reorder(S.Decay(p, Total(q, begin, m - 1), Total(q, begin, k)), step, p.dt(chunk, k), p.x(begin + k), q.b(begin + k, group, s));
    }
    SumScale(ScanTerms(p, q, group, s, chunk, begin, m - 1), ScanTerms(p, q, group, s, chunk, begin, m), step, 0, m);
  }

  lemma StepOfState(step: real, earlier: real, prev: real, sum: real, added: real, total: real, later: real)
    requires earlier == total * prev + sum && later == step * total
    ensures step * earlier + added == later * prev + (sum * step + added)
  {
    assert step * (total * prev) == step * total * prev;
  }

  lemma StateStep(p: S.Problem, q: Steps, group: int, s: int, chunk: nat, begin: int, m: nat)
    requires m < p.chunkSize && begin == chunk * p.chunkSize
    ensures begin + m >= 0
    ensures State(p, q, group, s, begin + m)
         == p.exp(q.decay(begin + m)) * State(p, q, group, s, begin + m - 1)
            + p.dt(chunk, m) * p.x(begin + m) * q.b(begin + m, group, s)
  {
    S.Position(chunk, m, p.chunkSize);
  }

  lemma UnitDecay(decay: real, dt: real, x: real, b: real)
    requires decay == 1.0
    ensures decay * dt * x * b == dt * x * b
  {
  }

  lemma LastTerm(p: S.Problem, q: Steps, group: int, s: int, chunk: int, begin: int, m: int)
    requires IsExp(p.exp) && m >= 0
    ensures Sum(ScanTerms(p, q, group, s, chunk, begin, m), 0, m + 1)
         == Sum(ScanTerms(p, q, group, s, chunk, begin, m), 0, m) + p.dt(chunk, m) * p.x(begin + m) * q.b(begin + m, group, s)
  {
    hide IsExp, Total, S.Decay, Sum;
    var terms := ScanTerms(p, q, group, s, chunk, begin, m);
    SumNext(terms, 0, m);
    ExpOfStep(p, q, begin, m);
    UnitDecay(S.Decay(p, Total(q, begin, m), Total(q, begin, m)), p.dt(chunk, m), p.x(begin + m), q.b(begin + m, group, s));
  }

  /** The state inside a chunk: the incoming state decayed, and what the chunk has added so far. */
  lemma {:induction false} StateInChunk(p: S.Problem, q: Steps, group: int, s: int, chunk: nat, begin: int, m: int)
    requires IsExp(p.exp) && -1 <= m < p.chunkSize && p.chunkSize > 0 && begin == chunk * p.chunkSize
    ensures State(p, q, group, s, begin + m)
         == p.exp(Total(q, begin, m)) * State(p, q, group, s, begin - 1) + Sum(ScanTerms(p, q, group, s, chunk, begin, m), 0, m + 1)
    decreases m + 1
  {
    hide *;
    if m < 0 {
      ExpOfStep(p, q, begin, 0);
      SumZero(ScanTerms(p, q, group, s, chunk, begin, m), 0, m + 1);
    } else {
      StateInChunk(p, q, group, s, chunk, begin, m - 1);
      StateStep(p, q, group, s, chunk, begin, m);
      ExpOfStep(p, q, begin, m);
      ScanTermsDecay(p, q, group, s, chunk, begin, m);
      LastTerm(p, q, group, s, chunk, begin, m);
      StepOfState(p.exp(q.decay(begin + m)), State(p, q, group, s, begin + m - 1), State(p, q, group, s, begin - 1),
                  Sum(ScanTerms(p, q, group, s, chunk, begin, m - 1), 0, m),
                  p.dt(chunk, m) * p.x(begin + m) * q.b(begin + m, group, s),
                  p.exp(Total(q, begin, m - 1)), p.exp(Total(q, begin, m)));
    }
  }

  lemma InputOf(p: S.Problem, q: Steps, group: int, s: int, chunk: nat, m: int, k: int)
    requires IsCumsum(p, q) && chunk < p.nchunks && 0 <= m < p.chunkSize && 0 <= k < p.chunkSize
    ensures ScanTerms(p, q, group, s, chunk, U.Position(p, chunk, 0), m)(k) == U.Terms(p, q.b, group, chunk, m, s)(k)
  {
    hide Total, S.Decay;
    var begin := U.Position(p, chunk, 0);
    assert p.cumsum(chunk, m) == Total(q, begin, m);
    assert p.cumsum(chunk, k) == Total(q, begin, k);
    assert U.Position(p, chunk, k) == begin + k;
    assert U.Inputs(p, chunk, m)(k) == S.Decay(p, Total(q, begin, m), Total(q, begin, k)) * p.dt(chunk, k) * p.x(begin + k);
  }

  /** The same in the tensors' terms: the incoming state decayed by dA_cumsum, and the inputs against B. */
  lemma StateAtRow(p: S.Problem, q: Steps, group: int, s: int, chunk: nat, m: nat)
    requires IsExp(p.exp) && IsCumsum(p, q) && chunk < p.nchunks && m < p.chunkSize
    ensures State(p, q, group, s, U.Position(p, chunk, m))
         == p.exp(p.cumsum(chunk, m)) * State(p, q, group, s, U.Position(p, chunk, 0) - 1)
            + Sum(U.Terms(p, q.b, group, chunk, m, s), 0, m + 1)
  {
    hide IsExp, Sum, State, Total, ScanTerms, U.Terms;
    var begin := U.Position(p, chunk, 0);
    StateInChunk(p, q, group, s, chunk, begin, m);
    forall k | 0 <= k < m + 1
      ensures ScanTerms(p, q, group, s, chunk, begin, m)(k) == U.Terms(p, q.b, group, chunk, m, s)(k)
    {
      InputOf(p, q, group, s, chunk, m, k);
    }
    SumEq(ScanTerms(p, q, group, s, chunk, begin, m), U.Terms(p, q.b, group, chunk, m, s), 0, m + 1);
  }

  lemma NextChunk(p: S.Problem, chunk: nat)
    requires chunk > 0
    ensures U.Position(p, chunk, 0) - 1 == U.Position(p, chunk - 1, p.chunkSize - 1)
  {
    NextMultiple(chunk - 1, p.chunkSize);
  }

  lemma FirstState(p: S.Problem, q: Steps, group: int, s: int)
    requires p.chunkSize > 0
    ensures State(p, q, group, s, U.Position(p, 0, 0) - 1) == p.prev(0, s)
  {
  }

  lemma PassedOn(p: S.Problem, q: Steps, s: int, chunk: nat, next: nat, last: nat)
    requires S.Valid(p) && IsPassed(p, q) && next == chunk + 1 < p.nchunks && 0 <= s < p.dstate && last + 1 == p.chunkSize
    ensures p.prev(next, s) == p.exp(p.cumsum(chunk, last)) * p.prev(chunk, s)
                               + Sum(U.Terms(p, q.b, S.GroupOf(p), chunk, last, s), 0, last + 1)
  {
    hide Sum, U.Terms, S.GroupOf, S.Valid;
    assert last == p.chunkSize - 1;
    assert U.Reference(p, q.b, chunk, s) == Sum(U.Terms(p, q.b, S.GroupOf(p), chunk, last, s), 0, last + 1);
    assert p.prev(chunk + 1, s) == p.exp(p.cumsum(chunk, p.chunkSize - 1)) * p.prev(chunk, s) + U.Reference(p, q.b, chunk, s);
  }

  /** prev_states holds the recurrence's state before the first position of each chunk. */
  lemma {:induction false} PrevIsState(p: S.Problem, q: Steps, s: int, chunk: nat)
    requires S.Valid(p) && p.chunkSize > 0 && IsExp(p.exp) && IsCumsum(p, q) && IsPassed(p, q)
    requires chunk < p.nchunks && 0 <= s < p.dstate
    ensures State(p, q, S.GroupOf(p), s, U.Position(p, chunk, 0) - 1) == p.prev(chunk, s)
  {
    hide *;
    if chunk == 0 {
      FirstState(p, q, S.GroupOf(p), s);
    } else {
      var earlier, last, group := chunk - 1, p.chunkSize - 1, S.GroupOf(p);
      PrevIsState(p, q, s, earlier);
      NextChunk(p, chunk);
      StateAtRow(p, q, group, s, earlier, last);
      PassedOn(p, q, s, earlier, chunk, last);
      assert State(p, q, group, s, U.Position(p, chunk, 0) - 1) == State(p, q, group, s, U.Position(p, earlier, last));
    }
  }

  // The read-out.

  function Added(p: S.Problem, q: Steps, group: int, chunk: int, m: int): int -> real {
    s => Sum(U.Terms(p, q.b, group, chunk, m, s), 0, m + 1)
  }

  function CbRow(p: S.Problem, group: int, chunk: int, m: int): int -> real {
    k => p.cb(chunk, group, m, k)
  }

  function Columns(p: S.Problem, q: Steps, group: int, chunk: int): (int, int) -> real {
    (s, k) => q.b(U.Position(p, chunk, k), group, s)
  }

  /** The lower triangle of cb, decayed, against dt and x is C against what the chunk has added. */
  lemma TriangleIsReadOut(p: S.Problem, q: Steps, group: int, chunk: nat, m: nat)
    requires IsCb(p, q, group) && chunk < p.nchunks && m < p.chunkSize
    ensures Sum(Times(CbRow(p, group, chunk, m), U.Inputs(p, chunk, m)), 0, m + 1)
         == Sum(Times(ReadOut(p, group, U.Position(p, chunk, m)), Added(p, q, group, chunk, m)), 0, p.dstate)
  {
    hide Sum, U.Inputs, ReadOut, U.Position;
    var read, inputs, matrix := ReadOut(p, group, U.Position(p, chunk, m)), U.Inputs(p, chunk, m), Columns(p, q, group, chunk);
    forall k | 0 <= k < m + 1
      ensures CbRow(p, group, chunk, m)(k) == Sum(Times(read, ColumnOf(matrix, k)), 0, p.dstate)
    {
      assert p.cb(chunk, group, m, k) == Sum(Times(read, WriteIn(q, group, U.Position(p, chunk, k))), 0, p.dstate);
      SumEq(Times(read, WriteIn(q, group, U.Position(p, chunk, k))), Times(read, ColumnOf(matrix, k)), 0, p.dstate);
    }
    forall s | 0 <= s < p.dstate
      ensures Added(p, q, group, chunk, m)(s) == Sum(Times(RowOf(matrix, s), inputs), 0, m + 1)
    {
      SumEq(U.Terms(p, q.b, group, chunk, m, s), Times(RowOf(matrix, s), inputs), 0, m + 1);
    }
    SumAssociates(read, matrix, inputs, CbRow(p, group, chunk, m), Added(p, q, group, chunk, m), 0, p.dstate, 0, m + 1);
  }

  lemma TriangleTerm(cb: real, decay: real, dt: real, x: real)
    ensures cb * decay * dt * x == cb * (decay * dt * x)
  {
    Regroup(cb, decay, dt);
    Regroup(cb, decay * dt, x);
  }

  lemma TriangleSum(p: S.Problem, group: int, chunk: int, m: nat)
    requires m < p.chunkSize
    ensures Sum(S.TriangleTerms(p, chunk, m, group), 0, p.chunkSize)
         == Sum(Times(CbRow(p, group, chunk, m), U.Inputs(p, chunk, m)), 0, m + 1)
  {
    hide Sum, S.Decay;
    var triangle := S.TriangleTerms(p, chunk, m, group);
    SumSplit(triangle, 0, m + 1, p.chunkSize);
    SumZero(triangle, m + 1, p.chunkSize);
    forall k | 0 <= k < m + 1
      ensures triangle(k) == Times(CbRow(p, group, chunk, m), U.Inputs(p, chunk, m))(k)
    {
      TriangleTerm(p.cb(chunk, group, m, k), S.Decay(p, p.cumsum(chunk, m), p.cumsum(chunk, k)), p.dt(chunk, k),
                   p.x(U.Position(p, chunk, k)));
    }
    SumEq(triangle, Times(CbRow(p, group, chunk, m), U.Inputs(p, chunk, m)), 0, m + 1);
  }

  lemma StateTerm(read: real, decay: real, prev: real, added: real)
    ensures read * (decay * prev + added) == read * prev * decay + read * added
  {
    Regroup(read, prev, decay);
    assert decay * prev == prev * decay;
  }

  lemma ReadOutTerm(p: S.Problem, q: Steps, chunk: nat, m: nat, s: int)
    requires S.Valid(p) && p.chunkSize > 0 && IsExp(p.exp) && IsCumsum(p, q) && IsPassed(p, q)
    requires chunk < p.nchunks && m < p.chunkSize && 0 <= s < p.dstate
    ensures var group, t := S.GroupOf(p), U.Position(p, chunk, m);
            Times(ReadOut(p, group, t), StateAt(p, q, group, t))(s)
            == S.StateTerms(p, chunk, m, group)(s) * p.exp(p.cumsum(chunk, m))
               + Times(ReadOut(p, group, t), Added(p, q, group, chunk, m))(s)
  {
    hide Sum, IsExp, IsCumsum, IsPassed, S.Valid, State, S.GroupOf, U.Terms;
    var group, t, decay := S.GroupOf(p), U.Position(p, chunk, m), p.exp(p.cumsum(chunk, m));
    var read, added := p.c(t, group, s), Sum(U.Terms(p, q.b, group, chunk, m, s), 0, m + 1);
    StateAtRow(p, q, group, s, chunk, m);
    PrevIsState(p, q, s, chunk);
    StateTerm(read, decay, p.prev(chunk, s), added);
    assert StateAt(p, q, group, t)(s) == decay * p.prev(chunk, s) + added;
    assert S.StateTerms(p, chunk, m, group)(s) == read * p.prev(chunk, s);
  }

  /** C against the state at a row. */
  lemma ReadOutOfState(p: S.Problem, q: Steps, chunk: nat, m: nat)
    requires S.Valid(p) && p.chunkSize > 0 && IsExp(p.exp) && IsCumsum(p, q) && IsPassed(p, q)
    requires chunk < p.nchunks && m < p.chunkSize
    ensures var group, t := S.GroupOf(p), U.Position(p, chunk, m);
            Sum(Times(ReadOut(p, group, t), StateAt(p, q, group, t)), 0, p.dstate)
            == Sum(S.StateTerms(p, chunk, m, group), 0, p.dstate) * p.exp(p.cumsum(chunk, m))
               + Sum(Times(ReadOut(p, group, t), Added(p, q, group, chunk, m)), 0, p.dstate)
  {
    hide *;
    var group, t, decay := S.GroupOf(p), U.Position(p, chunk, m), p.exp(p.cumsum(chunk, m));
    var read, added := ReadOut(p, group, t), Added(p, q, group, chunk, m);
    var carried := (s: int) => S.StateTerms(p, chunk, m, group)(s) * decay;
    forall s | 0 <= s < p.dstate
      ensures Times(read, StateAt(p, q, group, t))(s) == carried(s) + Times(read, added)(s)
    {
      ReadOutTerm(p, q, chunk, m, s);
    }
    SumScale(S.StateTerms(p, chunk, m, group), carried, decay, 0, p.dstate);
    SumAdd(carried, Times(read, added), Times(read, StateAt(p, q, group, t)), 0, p.dstate);
  }

  lemma InChunks(t: nat, chunks: nat, size: nat)
    requires size > 0 && t < chunks * size
    ensures 0 <= t / size < chunks
  {
    DivBounds(t, t, size);
    if t / size >= chunks {
      MulMonotone(chunks, t / size, size);
    }
  }

  /**
   * With dA_cumsum, cb and prev_states made from the steps, the chunk scan is the recurrence: at every
   * position of every chunk C reads the state out, plus the residual.
   */
  lemma ScanIsRecurrence(p: S.Problem, q: Steps, t: nat)
    requires S.Valid(p) && p.chunkSize > 0 && IsExp(p.exp)
    requires IsCumsum(p, q) && IsCb(p, q, S.GroupOf(p)) && IsPassed(p, q)
    requires t < p.nchunks * p.chunkSize
    ensures S.Reference(p, t)
         == Sum(Times(ReadOut(p, S.GroupOf(p), t), StateAt(p, q, S.GroupOf(p), t)), 0, p.dstate) + p.x(t) * p.d
  {
    hide Sum, IsExp, IsCumsum, IsPassed, IsCb, S.Valid, S.GroupOf, S.TriangleTerms, S.StateTerms, ReadOut, StateAt, Times;
    var chunk, m := t / p.chunkSize, t % p.chunkSize;
    DivBounds(t, p.nchunks * p.chunkSize, p.chunkSize);
    DivMod(t, p.chunkSize);
    InChunks(t, p.nchunks, p.chunkSize);
    ReadOutOfState(p, q, chunk, m);
    TriangleSum(p, S.GroupOf(p), chunk, m);
    TriangleIsReadOut(p, q, S.GroupOf(p), chunk, m);
  }
}
