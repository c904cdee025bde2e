// The Mamba-2 chunk scan of examples/mamba2_chunk_scan.py: the inner loop of row tile `id` stops
// at (id + 1) * block_m, which drops only terms that the causal mask zeroes.
module ChunkScan {
  import opened Sums
  import opened Tiling

  /**
   * For one batch entry, head and column: cb and c are indexed by group, the rest belongs to
   * the head. `position` is chunk * chunk_size + offset.
   */
  datatype Problem = Problem(
    nchunks: nat, chunkSize: nat, nheads: nat, ngroups: nat, dstate: nat, head: nat,
    cb: (int, int, int, int) -> real,   // chunk, group, row, column
    c: (int, int, int) -> real,         // position, group, state
    prev: (int, int) -> real,           // chunk, state
    x: int -> real,                     // position
    dt: (int, int) -> real,             // chunk, offset
    cumsum: (int, int) -> real,         // chunk, offset
    d: real,
    exp: real -> real, exp2: real -> real, log2e: real)

  /** v * p, with p the constant 1.44269504. */
  function Scaled(p: Problem, v: real): real {
    v * p.log2e
  }

  ghost predicate ExpLaw(p: Problem, v: real) {
    p.exp2(Scaled(p, v)) == p.exp(v)
  }

  /** exp2(v * p) stands for exp(v), and heads divide evenly among groups. */
  ghost predicate Valid(p: Problem) {
    && p.chunkSize > 0 && p.head < p.nheads && p.ngroups > 0 && p.nheads % p.ngroups == 0
    && (forall v: real :: ExpLaw(p, v))
  }

  // Grouped heads.

  /** torch.repeat_interleave: every entry `times` times in a row. */
  function RepeatInterleave(s: seq<nat>, times: nat): (r: seq<nat>)
    ensures |r| == |s| * times
  {
    if s == [] then [] else seq(times, i => s[0]) + RepeatInterleave(s[1..], times)
  }

  lemma FirstRun(s: seq<nat>, times: nat, i: nat)
    requires s != [] && i < times
    ensures i < |RepeatInterleave(s, times)| && RepeatInterleave(s, times)[i] == s[0]
  {
  }

  lemma LaterRun(s: seq<nat>, times: nat, i: nat)
    requires s != [] && times <= i && i - times < |RepeatInterleave(s[1..], times)|
    ensures i < |RepeatInterleave(s, times)|
    ensures RepeatInterleave(s, times)[i] == RepeatInterleave(s[1..], times)[i - times]
  {
  }

  lemma OneLess(n: nat, times: nat, i: nat)
    requires times <= i < n * times
    ensures i - times < (n - 1) * times && (i - times) / times == i / times - 1
  {
    DivBounds(i, i + 1, times);
    DivUnique(i - times, i / times - 1, times);
  }

  lemma {:induction false} RepeatInterleaveAt(s: seq<nat>, times: nat, i: nat)
    requires times > 0 && i < |s| * times
    ensures |s| > 0 && 0 <= i / times < |s| && RepeatInterleave(s, times)[i] == s[i / times]
  {
    DivBounds(i, |s| * times, times);
    if i < times {
      DivUnique(i, 0, times);
      FirstRun(s, times, i);
    } else {
      OneLess(|s|, times, i);
      RepeatInterleaveAt(s[1..], times, i - times);
      LaterRun(s, times, i);
    }
  }

  lemma HeadsPerGroup(nheads: nat, ngroups: nat, head: nat)
    requires ngroups > 0 && nheads % ngroups == 0 && head < nheads
    ensures nheads / ngroups > 0 && head < ngroups * (nheads / ngroups)
  {
  }

  /** The group whose c and cb the repeated tensors show to a head. */
  function GroupOf(p: Problem): (g: nat)
    requires Valid(p)
    ensures g < p.ngroups
  {
    var times := p.nheads / p.ngroups;
    HeadsPerGroup(p.nheads, p.ngroups, p.head);
    RepeatInterleaveAt(seq(p.ngroups, g => g), times, p.head);
    RepeatInterleave(seq(p.ngroups, g => g), times)[p.head]
  }

  /** The kernel's index tile_h.begin // (nheads // ngroups) is that group. */
  lemma GroupedIndexAgrees(p: Problem)
    requires Valid(p)
    ensures p.nheads / p.ngroups > 0 && GroupOf(p) == p.head / (p.nheads / p.ngroups)
  {
    var times := p.nheads / p.ngroups;
    HeadsPerGroup(p.nheads, p.ngroups, p.head);
    RepeatInterleaveAt(seq(p.ngroups, g => g), times, p.head);
  }

  // The reference: the whole lower triangle.

  function StateTerms(p: Problem, chunk: int, m: int, group: int): int -> real {
    s => p.c(chunk * p.chunkSize + m, group, s) * p.prev(chunk, s)
  }

  function Decay(p: Problem, row: real, column: real): real {
    p.exp(row - column)
  }

  /** Row m, column k of the masked, decayed scores, times dt and x. */
  function TriangleTerms(p: Problem, chunk: int, m: int, group: int): int -> real {
    k => (if k <= m then p.cb(chunk, group, m, k) * Decay(p, p.cumsum(chunk, m), p.cumsum(chunk, k)) * p.dt(chunk, k) else 0.0)
         * p.x(chunk * p.chunkSize + k)
  }

  /** ref_chunk_scan at one position. */
  function Reference(p: Problem, position: nat): real
    requires Valid(p)
  {
    var chunk, m := position / p.chunkSize, position % p.chunkSize;
    Sum(TriangleTerms(p, chunk, m, GroupOf(p)), 0, p.chunkSize)
    + Sum(StateTerms(p, chunk, m, GroupOf(p)), 0, p.dstate) * p.exp(p.cumsum(chunk, m))
    + p.x(position) * p.d
  }

  // The kernel.

  function KernelDecay(p: Problem, row: real, column: real): real {
    p.exp2(Scaled(p, row) - Scaled(p, column))
  }

  /** One entry of cb_local: decay by exp2 of scaled cumulative sums, dt, then the mask. */
  function KernelTerms(p: Problem, chunk: int, m: int, group: int): int -> real {
    k => (if m >= k
          then p.cb(chunk, group, m, k) * KernelDecay(p, p.cumsum(chunk, m), p.cumsum(chunk, k)) * p.dt(chunk, k)
          else 0.0)
         * p.x(chunk * p.chunkSize + k)
  }

  lemma ScaledDifference(p: Problem, a: real, b: real)
    ensures Scaled(p, a - b) == Scaled(p, a) - Scaled(p, b)
  {
  }

  lemma DecayOfDifference(p: Problem, a: real, b: real)
    requires Valid(p)
    ensures KernelDecay(p, a, b) == Decay(p, a, b)
  {
    hide Scaled;
    ScaledDifference(p, a, b);
    assert ExpLaw(p, a - b);
  }

  lemma KernelTermsAreTriangle(p: Problem, chunk: int, m: int, group: int, k: int)
    requires Valid(p)
    ensures KernelTerms(p, chunk, m, group)(k) == TriangleTerms(p, chunk, m, group)(k)
  {
    hide Decay, KernelDecay;
    DecayOfDifference(p, p.cumsum(chunk, m), p.cumsum(chunk, k));
  }

  lemma SameTerms(p: Problem, chunk: int, m: int, group: int)
    requires Valid(p)
    ensures Sum(KernelTerms(p, chunk, m, group), 0, m + 1) == Sum(TriangleTerms(p, chunk, m, group), 0, m + 1)
  {
    hide *;
    forall k | 0 <= k < m + 1
      ensures KernelTerms(p, chunk, m, group)(k) == TriangleTerms(p, chunk, m, group)(k)
    {
      KernelTermsAreTriangle(p, chunk, m, group, k);
    }
    SumEq(KernelTerms(p, chunk, m, group), TriangleTerms(p, chunk, m, group), 0, m + 1);
  }

  /** Columns at or past `bound` are masked as soon as the bound lies beyond the row. */
  lemma TruncatedSum(p: Problem, chunk: int, m: int, group: int, bound: int)
    requires Valid(p) && 0 <= m < bound && m < p.chunkSize
    ensures Sum(KernelTerms(p, chunk, m, group), 0, bound) == Sum(TriangleTerms(p, chunk, m, group), 0, p.chunkSize)
  {
    hide Sum, Valid;
    var f, g := KernelTerms(p, chunk, m, group), TriangleTerms(p, chunk, m, group);
    forall k | m + 1 <= k
      ensures f(k) == 0.0 && g(k) == 0.0
    {
    }
    SumSplit(f, 0, m + 1, bound);
    SumSplit(g, 0, m + 1, p.chunkSize);
    SumZero(f, m + 1, bound);
    SumZero(g, m + 1, p.chunkSize);
    SameTerms(p, chunk, m, group);
  }

  lemma StateDecay(p: Problem, chunk: int, m: int)
    requires Valid(p)
    ensures p.exp2(Scaled(p, p.cumsum(chunk, m))) == p.exp(p.cumsum(chunk, m))
  {
    hide Scaled;
    assert ExpLaw(p, p.cumsum(chunk, m));
  }

  lemma Position(chunk: nat, m: nat, size: nat)
    requires m < size
    ensures chunk * size + m >= 0
    ensures (chunk * size + m) / size == chunk && (chunk * size + m) % size == m
  {
    MulMonotone(0, chunk, size);
    DivUnique(chunk * size + m, chunk, size);
  }

  lemma ReferenceAt(p: Problem, chunk: nat, m: nat, group: int)
    requires Valid(p) && m < p.chunkSize && p.nheads / p.ngroups > 0 && group == p.head / (p.nheads / p.ngroups)
    ensures chunk * p.chunkSize + m >= 0
    ensures Reference(p, chunk * p.chunkSize + m)
         == Sum(TriangleTerms(p, chunk, m, group), 0, p.chunkSize)
            + Sum(StateTerms(p, chunk, m, group), 0, p.dstate) * p.exp(p.cumsum(chunk, m))
            + p.x(chunk * p.chunkSize + m) * p.d
  {
    hide Sum, TriangleTerms, StateTerms, GroupOf;
    GroupedIndexAgrees(p);
    Position(chunk, m, p.chunkSize);
  }

  /** One element: the previous states decayed, the truncated scan in tiles of block_k, the residual. */
  method Element(p: Problem, chunk: nat, m: nat, bound: int, blockK: int) returns (acc: real)
    requires Valid(p) && m < bound && m < p.chunkSize && blockK > 0
    requires p.ngroups > 0 && p.nheads / p.ngroups > 0 && chunk * p.chunkSize >= 0
    ensures acc == Reference(p, chunk * p.chunkSize + m)
  {
    hide *;
    var group := p.head / (p.nheads / p.ngroups);
    acc := Sum(StateTerms(p, chunk, m, group), 0, p.dstate);
    StateDecay(p, chunk, m);
    var scale := p.exp2(Scaled(p, p.cumsum(chunk, m)));
    acc := acc * scale;
    ghost var state := acc;
    var lo := 0;
    SumZero(KernelTerms(p, chunk, m, group), 0, 0);
    while lo < bound
      invariant 0 <= lo <= bound
      invariant acc == state + Sum(KernelTerms(p, chunk, m, group), 0, lo)
    {
      var hi := if lo + blockK < bound then lo + blockK else bound;
      SumSplit(KernelTerms(p, chunk, m, group), 0, lo, hi);
      acc := acc + Sum(KernelTerms(p, chunk, m, group), lo, hi);
      lo := hi;
    }
    acc := acc + p.x(chunk * p.chunkSize + m) * p.d;
    TruncatedSum(p, chunk, m, group, bound);
    ReferenceAt(p, chunk, m, group);
  }

  /** The rows lo..hi of a row tile whose inner loop stops at `bound`. */
  method TileRows(p: Problem, chunk: nat, base: nat, lo: nat, hi: nat, bound: int, out: array<real>, blockK: int)
    requires Valid(p) && blockK > 0 && p.chunkSize > 0 && p.ngroups > 0 && p.nheads / p.ngroups > 0
    requires base == chunk * p.chunkSize && base + p.chunkSize <= out.Length
    requires lo <= hi <= p.chunkSize && hi <= bound
    modifies out
    ensures forall t :: 0 <= t < base + lo ==> out[t] == old(out[t])
    ensures forall t :: base + lo <= t < base + hi ==> out[t] == Reference(p, t)
  {
    hide *;
    for row := lo to hi
      invariant forall t :: 0 <= t < base + lo ==> out[t] == old(out[t])
      invariant forall t :: base + lo <= t < base + row ==> out[t] == Reference(p, t)
    {
      var acc := Element(p, chunk, row, bound, blockK);
      out[base + row] := acc;
    }
  }

  /** The row tiles of one chunk. */
  method ChunkRows(p: Problem, chunk: nat, base: nat, out: array<real>, blockM: int, blockK: int)
    requires Valid(p) && blockM > 0 && blockK > 0
    requires p.chunkSize > 0 && p.ngroups > 0 && p.nheads / p.ngroups > 0
    requires base == chunk * p.chunkSize && base + p.chunkSize <= out.Length
    modifies out
    ensures forall t :: 0 <= t < base ==> out[t] == old(out[t])
    ensures forall t :: base <= t < base + p.chunkSize ==> out[t] == Reference(p, t)
  {
    hide *;
    var id, lo := 0, 0;
    while lo < p.chunkSize
      invariant 0 <= lo <= p.chunkSize && id >= 0
      invariant lo == (if id * blockM < p.chunkSize then id * blockM else p.chunkSize)
      invariant forall t :: 0 <= t < base ==> out[t] == old(out[t])
      invariant forall t :: base <= t < base + lo ==> out[t] == Reference(p, t)
      decreases p.chunkSize - lo
    {
      NextMultiple(id, blockM);
      var bound := (id + 1) * blockM;
      var hi := if bound < p.chunkSize then bound else p.chunkSize;
      TileRows(p, chunk, base, lo, hi, bound, out, blockK);
      id, lo := id + 1, hi;
    }
  }

  lemma ChunkIsPositive(p: Problem)
    requires Valid(p)
    ensures p.chunkSize > 0 && p.ngroups > 0
  {
  }

  lemma ChunkFits(chunk: nat, nchunks: nat, size: nat)
    requires chunk < nchunks
    ensures 0 <= nchunks * size && 0 <= chunk * size && chunk * size + size == (chunk + 1) * size <= nchunks * size
  {
    MulMonotone(chunk + 1, nchunks, size);
  }

  /** Every chunk of one channel; seqlen == nchunks * chunk_size. */
  method Kernel(p: Problem, blockM: int, blockK: int) returns (out: array<real>)
    requires Valid(p) && blockM > 0 && blockK > 0
    ensures out.Length == p.nchunks * p.chunkSize
    ensures forall t :: 0 <= t < out.Length ==> out[t] == Reference(p, t)
  {
    hide *;
    ChunkIsPositive(p);
    GroupedIndexAgrees(p);
    ChunkFits(0, p.nchunks + 1, p.chunkSize);
    out := new real[p.nchunks * p.chunkSize];
    var base: nat := 0;
    for chunk := 0 to p.nchunks
      invariant base == chunk * p.chunkSize
      invariant forall t :: 0 <= t < base && t < out.Length ==> out[t] == Reference(p, t)
    {
      ChunkFits(chunk, p.nchunks, p.chunkSize);
      ChunkRows(p, chunk, base, out, blockM, blockK);
      base := base + p.chunkSize;
    }
  }
}
