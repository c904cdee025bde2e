// The Mamba-2 chunk states of examples/mamba2_chunk_state.py: what the positions of one chunk add to
// the state that the chunk hands on, for the same tensors as the chunk scan.
module ChunkState {
  import opened Sums
  import opened Tiling
  import S = ChunkScan

  function Position(p: S.Problem, chunk: int, k: int): int {
    chunk * p.chunkSize + k
  }

  /** dt and x of a position, decayed up to a row of its chunk. */
  function Inputs(p: S.Problem, chunk: int, row: int): int -> real {
    k => S.Decay(p, p.cumsum(chunk, row), p.cumsum(chunk, k)) * p.dt(chunk, k) * p.x(Position(p, chunk, k))
  }

  /** The inputs times B at one entry of the state. */
  function Terms(p: S.Problem, b: (int, int, int) -> real, group: int, chunk: int, row: int, s: int): int -> real {
    k => Inputs(p, chunk, row)(k) * b(Position(p, chunk, k), group, s)
  }

  /** ref_chunk_state at one entry: the inputs decayed up to the last row. */
  function Reference(p: S.Problem, b: (int, int, int) -> real, chunk: int, s: int): real
    requires S.Valid(p)
  {
    Sum(Terms(p, b, S.GroupOf(p), chunk, p.chunkSize - 1, s), 0, p.chunkSize)
  }

  /** x times exp2 of the scaled difference times dt, against B. */
  function KernelTerms(p: S.Problem, b: (int, int, int) -> real, group: int, chunk: int, s: int): int -> real {
    k => p.x(Position(p, chunk, k)) * (S.KernelDecay(p, p.cumsum(chunk, p.chunkSize - 1), p.cumsum(chunk, k)) * p.dt(chunk, k))
         * b(Position(p, chunk, k), group, s)
  }

  lemma SameTerm(p: S.Problem, b: (int, int, int) -> real, group: int, chunk: int, s: int, k: int)
    requires S.Valid(p)
    ensures KernelTerms(p, b, group, chunk, s)(k) == Terms(p, b, group, chunk, p.chunkSize - 1, s)(k)
  {
    hide S.Decay, S.KernelDecay, Position;
    S.DecayOfDifference(p, p.cumsum(chunk, p.chunkSize - 1), p.cumsum(chunk, k));
  }

  lemma SameTerms(p: S.Problem, b: (int, int, int) -> real, group: int, chunk: int, s: int)
    requires S.Valid(p)
    ensures Sum(KernelTerms(p, b, group, chunk, s), 0, p.chunkSize) == Sum(Terms(p, b, group, chunk, p.chunkSize - 1, s), 0, p.chunkSize)
  {
    hide *;
    forall k | 0 <= k < p.chunkSize
      ensures KernelTerms(p, b, group, chunk, s)(k) == Terms(p, b, group, chunk, p.chunkSize - 1, s)(k)
    {
      SameTerm(p, b, group, chunk, s, k);
    }
    SumEq(KernelTerms(p, b, group, chunk, s), Terms(p, b, group, chunk, p.chunkSize - 1, s), 0, p.chunkSize);
  }

  lemma ReferenceIs(p: S.Problem, b: (int, int, int) -> real, group: int, chunk: int, s: int)
    requires S.Valid(p) && p.nheads / p.ngroups > 0 && group == p.head / (p.nheads / p.ngroups)
    ensures Reference(p, b, chunk, s) == Sum(Terms(p, b, group, chunk, p.chunkSize - 1, s), 0, p.chunkSize)
  {
    hide Sum, Terms;
    S.GroupedIndexAgrees(p);
  }

  /** One entry of a chunk's state: the loop over the chunk in tiles of block_k. */
  method Element(p: S.Problem, b: (int, int, int) -> real, chunk: nat, s: nat, blockK: nat) returns (acc: real)
    requires S.Valid(p) && blockK > 0 && p.ngroups > 0 && p.nheads / p.ngroups > 0
    ensures acc == Reference(p, b, chunk, s)
  {
    hide *;
    var group := p.head / (p.nheads / p.ngroups);
    acc := 0.0;
    var lo := 0;
    SumZero(KernelTerms(p, b, group, chunk, s), 0, 0);
    while lo < p.chunkSize
      invariant 0 <= lo <= p.chunkSize
      invariant acc == Sum(KernelTerms(p, b, group, chunk, s), 0, lo)
    {
      var hi := if lo + blockK < p.chunkSize then lo + blockK else p.chunkSize;
      SumSplit(KernelTerms(p, b, group, chunk, s), 0, lo, hi);
      acc := acc + Sum(KernelTerms(p, b, group, chunk, s), lo, hi);
      lo := hi;
    }
    SameTerms(p, b, group, chunk, s);
    ReferenceIs(p, b, group, chunk, s);
  }

  /** Every chunk and every entry of the state, for one batch entry, head and row. */
  method Kernel(p: S.Problem, b: (int, int, int) -> real, blockK: nat) returns (out: array2<real>)
    requires S.Valid(p) && blockK > 0
    ensures out.Length0 == p.nchunks && out.Length1 == p.dstate
    ensures forall chunk, s :: 0 <= chunk < p.nchunks && 0 <= s < p.dstate ==> out[chunk, s] == Reference(p, b, chunk, s)
  {
    hide Reference, S.GroupOf;
    S.GroupedIndexAgrees(p);
    out := new real[p.nchunks, p.dstate];
    for chunk := 0 to p.nchunks
      invariant forall i, s :: 0 <= i < chunk && 0 <= s < p.dstate ==> out[i, s] == Reference(p, b, i, s)
    {
      for s := 0 to p.dstate
        invariant forall i, j :: 0 <= i < chunk && 0 <= j < p.dstate ==> out[i, j] == Reference(p, b, i, j)
        invariant forall j :: 0 <= j < s ==> out[chunk, j] == Reference(p, b, chunk, j)
      {
        out[chunk, s] := Element(p, b, chunk, s, blockK);
      }
    }
  }
}
