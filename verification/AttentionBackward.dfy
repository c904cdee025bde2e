// attention_backward of examples/attention.py: one program per key tile keeps dk and dv
// to itself and adds into dq with hl.atomic_add while it walks the query tiles of its batch.
module AttentionBackward {
  import opened Sums
  import opened Tiling
  import A = AtomicAdds

  /** Batches are flattened: rows of q, do, lse and delta, and rows of k and v. */
  datatype Problem = Problem(
    batch: nat, mDim: nat, nDim: nat, headDim: nat, blockM: nat, blockN: nat,
    q: (int, int) -> real, k: (int, int) -> real, v: (int, int) -> real, grad: (int, int) -> real,
    lse: int -> real, delta: int -> real, smScale: real, ln2: real)

  /** The kernel's assertion that block sizes divide the sequence lengths. */
  ghost predicate Valid(p: Problem) {
    p.mDim > 0 && p.nDim > 0 && p.blockM > 0 && p.blockN > 0
    && p.mDim % p.blockM == 0 && p.nDim % p.blockN == 0
  }

  function DotTerms(f: (int, int) -> real, g: (int, int) -> real, i: int, j: int): int -> real {
    d => f(i, d) * g(j, d)
  }

  function Dot(f: (int, int) -> real, g: (int, int) -> real, i: int, j: int, dim: nat): real {
    Sum(DotTerms(f, g, i, j), 0, dim)
  }

  /** p_t[n, m] = exp2(k . q - lse). */
  function P(p: Problem, e: real -> real, n: int, m: int): real {
    e(Dot(p.k, p.q, n, m, p.headDim) - p.lse(m))
  }

  /** ds_t[n, m] = p_t * (v . do - delta). */
  function Ds(p: Problem, e: real -> real, n: int, m: int): real {
    P(p, e, n, m) * (Dot(p.v, p.grad, n, m, p.headDim) - p.delta(m))
  }

  // Which query rows a program visits.

  /** The number of programs: tiles of all key rows. */
  function Programs(p: Problem): nat
    requires p.blockN > 0
  {
    NumTiles(0, p.batch * p.nDim, p.blockN)
  }

  function KeyBegin(p: Problem, t: int): int {
    TileBegin(0, p.blockN, t)
  }

  function KeyEnd(p: Problem, t: int): int {
    TileEnd(0, p.batch * p.nDim, p.blockN, t)
  }

  /** batch_idx = tile_n.begin // n_dim. */
  function BatchOf(p: Problem, t: int): int
    requires p.nDim > 0
  {
    KeyBegin(p, t) / p.nDim
  }

  function QueryBegin(p: Problem, t: int): int
    requires p.nDim > 0
  {
    BatchOf(p, t) * p.mDim
  }

  /** Query tile u of program t holds row m. */
  ghost predicate Visits(p: Problem, t: int, u: int, m: int)
    requires Valid(p)
  {
    InTile(QueryBegin(p, t), QueryBegin(p, t) + p.mDim, p.blockM, u, m)
  }

  lemma CancelBlock(x: int, y: int, block: int)
    requires block > 0
    ensures x * block <= y * block ==> x <= y
  {
    if y < x {
      MulMonotone(y + 1, x, block);
    }
  }

  /** Two multiples of a block that differ are a block apart. */
  lemma NextBlock(t: int, last: int, block: int)
    requires block > 0 && t * block < last * block
    ensures t < last
  {
    if last <= t {
      MulMonotone(last, t, block);
    }
  }

  lemma Triple(b: int, c: int, block: int)
    ensures b * c * block == b * (c * block)
  {
  }

  lemma BlockInside(t: int, first: int, last: int, block: int)
    requires first <= t < last && block > 0
    ensures first * block <= t * block < last * block
  {
    MulMonotone(first, t, block);
    MulMonotone(t + 1, last, block);
    assert (t + 1) * block == t * block + block;
  }

  /** Blocks of `block` rows, c of them to a batch of `dim` rows. */
  lemma BlockOfBlocks(t: int, b: int, c: int, block: int, dim: int)
    requires 0 <= b && 0 <= t && block > 0 && dim > 0 && dim == c * block
    ensures t * block / dim == b <==> b * c <= t < (b + 1) * c
    ensures b * dim == b * c * block
  {
    Triple(b, c, block);
    Triple(b + 1, c, block);
    MulMonotone(0, t, block);
    if b * c <= t < (b + 1) * c {
      BlockInside(t, b * c, (b + 1) * c, block);
      DivUnique(t * block, b, dim);
    }
    if t * block / dim == b {
      DivBounds(t * block, t * block, dim);
      CancelBlock(b * c, t, block);
      NextBlock(t, (b + 1) * c, block);
    }
  }

  /** Key tiles do not straddle batches: tile t belongs to batch b exactly in b's block of tiles. */
  lemma TilesOfBatch(p: Problem, t: int, b: int)
    requires Valid(p) && 0 <= b && 0 <= t
    ensures BatchOf(p, t) == b <==> b * (p.nDim / p.blockN) <= t < (b + 1) * (p.nDim / p.blockN)
    ensures b * p.nDim == TileBegin(0, p.blockN, b * (p.nDim / p.blockN))
  {
    var c := p.nDim / p.blockN;
    assert p.nDim == c * p.blockN;
    BlockOfBlocks(t, b, c, p.blockN, p.nDim);
  }

  /** A program meets a query row of its own batch in exactly one query tile, and no other row. */
  lemma RowVisitedOnce(p: Problem, t: int, u: int, m: int)
    requires Valid(p) && 0 <= t && 0 <= m
    ensures Visits(p, t, u, m) <==> BatchOf(p, t) == m / p.mDim && u == (m - QueryBegin(p, t)) / p.blockM
  {
    var b := BatchOf(p, t);
    TilesPartition(QueryBegin(p, t), QueryBegin(p, t) + p.mDim, p.blockM, u, m);
    DivBounds(m, m, p.mDim);
    if b * p.mDim <= m < b * p.mDim + p.mDim {
      DivUnique(m, b, p.mDim);
    }
  }

  lemma KeyRowBatch(p: Problem, t: int, n: int)
    requires Valid(p) && 0 <= n && t == n / p.blockN
    ensures t >= 0 && BatchOf(p, t) == n / p.nDim
  {
    var b := n / p.nDim;
    DivBounds(n, n, p.nDim);
    DivBounds(n, n, p.blockN);
    var c := p.nDim / p.blockN;
    assert p.nDim == c * p.blockN;
    assert b * p.nDim == b * c * p.blockN;
    assert (b + 1) * p.nDim == (b + 1) * c * p.blockN;
    TilesOfBatch(p, t, b);
    if t < b * c {
      MulMonotone(t + 1, b * c, p.blockN);
    } else if t >= (b + 1) * c {
      MulMonotone((b + 1) * c, t, p.blockN);
    }
  }

  /** Every (query row, key row) pair of one batch meets in exactly one program, no other pair in any. */
  lemma PairMeetsOnce(p: Problem, t: int, u: int, m: int, n: int)
    requires Valid(p) && 0 <= m && 0 <= n < p.batch * p.nDim
    ensures InTile(0, p.batch * p.nDim, p.blockN, t, n) && Visits(p, t, u, m)
            <==> n / p.nDim == m / p.mDim && t == n / p.blockN && u == (m - QueryBegin(p, t)) / p.blockM
  {
    TilesPartition(0, p.batch * p.nDim, p.blockN, t, n);
    if t == n / p.blockN {
      DivBounds(n, n, p.blockN);
      RowVisitedOnce(p, t, u, m);
      KeyRowBatch(p, t, n);
    }
  }

  // dq.

  /** One key row's share of dq[m, d]. */
  function DqTerms(p: Problem, e: real -> real, m: int, d: int): int -> real {
    n => Ds(p, e, n, m) * p.k(n, d)
  }

  /** dq_acc * LN2 for row m in program t. */
  function Contribution(p: Problem, e: real -> real, m: int, d: int, t: int): real {
    Sum(DqTerms(p, e, m, d), KeyBegin(p, t), KeyEnd(p, t)) * p.ln2
  }

  function RowBatch(p: Problem, m: int): int
    requires p.mDim > 0
  {
    m / p.mDim
  }

  /** Program t adds to dq[m, d] once if it visits row m. */
  function Plan(p: Problem, e: real -> real): A.Plan
    requires Valid(p)
  {
    A.Plan(Programs(p),
           (m, d, t) => 0 <= m < p.batch * p.mDim && 0 <= d < p.headDim && p.nDim > 0 && p.mDim > 0 && BatchOf(p, t) == RowBatch(p, m),
           (m, d, t) => Contribution(p, e, m, d, t))
  }

  /** The plan issues exactly the additions of visited rows. */
  lemma PlanIsVisits(p: Problem, e: real -> real, m: int, d: int, t: int)
    requires Valid(p) && 0 <= t < Programs(p) && 0 <= m < p.batch * p.mDim && 0 <= d < p.headDim
    ensures Plan(p, e).issued(m, d, t) <==> exists u :: Visits(p, t, u, m)
  {
    hide BatchOf, QueryBegin, Programs, Contribution, InTile;
    var own := (m - QueryBegin(p, t)) / p.blockM;
    RowVisitedOnce(p, t, own, m);
    if BatchOf(p, t) == RowBatch(p, m) {
      assert Visits(p, t, own, m);
    }
    forall u | Visits(p, t, u, m)
      ensures BatchOf(p, t) == RowBatch(p, m)
    {
      RowVisitedOnce(p, t, u, m);
    }
  }

  /** The gradient of one batch: the sum over that batch's key rows. */
  function Dq(p: Problem, e: real -> real, m: int, d: int): real
    requires p.mDim > 0
  {
    var b := RowBatch(p, m);
    Sum(DqTerms(p, e, m, d), b * p.nDim, (b + 1) * p.nDim) * p.ln2
  }

  /** The i-th key tile of batch b is tile `first + i` of the grid. */
  ghost predicate TileAgrees(p: Problem, b: int, first: int, i: int) {
    && KeyBegin(p, i + first) == TileBegin(b * p.nDim, p.blockN, i)
    && KeyEnd(p, i + first) == TileEnd(b * p.nDim, (b + 1) * p.nDim, p.blockN, i)
  }

  lemma ProgramCount(p: Problem, b: int)
    requires Valid(p) && 0 <= b < p.batch
    ensures p.nDim / p.blockN >= 1
    ensures (b + 1) * (p.nDim / p.blockN) <= Programs(p)
  {
    var c := p.nDim / p.blockN;
    assert p.nDim == c * p.blockN;
    assert p.batch * p.nDim == p.batch * c * p.blockN;
    MulMonotone(1, p.batch, p.nDim);
    DivUnique(p.batch * p.nDim + p.blockN - 1, p.batch * c, p.blockN);
    if c <= 0 {
      MulMonotone(c, 0, p.blockN);
    }
    MulMonotone(b + 1, p.batch, c);
  }

  lemma BatchTiles(p: Problem, b: int, c: int)
    requires Valid(p) && 0 <= b < p.batch && c == p.nDim / p.blockN
    ensures (b + 1) * c == b * c + c
    ensures NumTiles(b * p.nDim, (b + 1) * p.nDim, p.blockN) == c
  {
    assert p.nDim == c * p.blockN;
    assert (b + 1) * p.nDim == b * p.nDim + p.nDim;
    DivUnique(p.nDim + p.blockN - 1, c, p.blockN);
  }

  /** Tile i of batch b, in the batch's own and in the grid's numbering. */
  lemma BatchTile(p: Problem, b: int, c: int, i: int)
    requires Valid(p) && 0 <= b < p.batch && c == p.nDim / p.blockN && 0 <= i < c
    ensures KeyBegin(p, i + b * c) == b * p.nDim + i * p.blockN
    ensures KeyEnd(p, i + b * c) == b * p.nDim + (i + 1) * p.blockN
    ensures TileEnd(b * p.nDim, (b + 1) * p.nDim, p.blockN, i) == b * p.nDim + (i + 1) * p.blockN
  {
    var block := p.blockN;
    assert p.nDim == c * block;
    assert b * p.nDim == b * c * block;
    assert (i + b * c) * block == i * block + b * c * block;
    assert (i + b * c + 1) * block == (i + 1) * block + b * c * block;
    MulMonotone(i + 1, c, block);
    MulMonotone(b + 1, p.batch, p.nDim);
    assert (b + 1) * p.nDim == b * p.nDim + p.nDim;
  }

  /** The programs of batch b are the consecutive tiles first..last, and tile the batch's key rows. */
  lemma BatchPrograms(p: Problem, b: int) returns (first: int, last: int)
    requires Valid(p) && 0 <= b < p.batch
    ensures 0 <= first <= last <= Programs(p)
    ensures forall t :: 0 <= t ==> (BatchOf(p, t) == b <==> first <= t < last)
    ensures NumTiles(b * p.nDim, (b + 1) * p.nDim, p.blockN) == last - first
    ensures forall i :: 0 <= i < last - first ==> TileAgrees(p, b, first, i)
  {
    var c := p.nDim / p.blockN;
    first, last := b * c, (b + 1) * c;
    ProgramCount(p, b);
    BatchTiles(p, b, c);
    MulMonotone(0, b, c);
    forall t | 0 <= t
      ensures BatchOf(p, t) == b <==> first <= t < last
    {
      TilesOfBatch(p, t, b);
    }
    forall i | 0 <= i < last - first
      ensures TileAgrees(p, b, first, i)
    {
      BatchTile(p, b, c, i);
    }
  }

  function KeyTileSum(p: Problem, e: real -> real, m: int, d: int): int -> real {
    t => Sum(DqTerms(p, e, m, d), KeyBegin(p, t), KeyEnd(p, t))
  }

  /** Over the programs of a batch the key tiles make up the batch's key rows. */
  lemma KeyTilesSum(p: Problem, e: real -> real, m: int, d: int, b: int, first: int, last: int)
    requires Valid(p) && 0 <= b < p.batch && first <= last
    requires NumTiles(b * p.nDim, (b + 1) * p.nDim, p.blockN) == last - first
    requires forall i :: 0 <= i < last - first ==> TileAgrees(p, b, first, i)
    ensures Sum(KeyTileSum(p, e, m, d), first, last) == Sum(DqTerms(p, e, m, d), b * p.nDim, (b + 1) * p.nDim)
  {
    hide NumTiles, TileBegin, TileEnd, Sum, DqTerms, KeyBegin, KeyEnd;
    var begin, end, terms := b * p.nDim, (b + 1) * p.nDim, DqTerms(p, e, m, d);
    var tiles := (i: int) => Sum(terms, TileBegin(begin, p.blockN, i), TileEnd(begin, end, p.blockN, i));
    SumOverTiles(terms, tiles, begin, end, p.blockN);
    forall i | 0 <= i < last - first
      ensures tiles(i) == KeyTileSum(p, e, m, d)(i + first)
    {
      assert TileAgrees(p, b, first, i);
    }
    SumShift(KeyTileSum(p, e, m, d), tiles, 0, last - first, first);
  }

  lemma RowBatchInRange(p: Problem, m: int)
    requires Valid(p) && 0 <= m < p.batch * p.mDim
    ensures 0 <= RowBatch(p, m) < p.batch
  {
    DivBounds(m, m, p.mDim);
    if m / p.mDim >= p.batch {
      MulMonotone(p.batch, m / p.mDim, p.mDim);
    }
  }

  lemma IssuedTerm(p: Problem, e: real -> real, m: int, d: int, t: int)
    requires Valid(p) && 0 <= m < p.batch * p.mDim && 0 <= d < p.headDim
    ensures A.IssuedTerms(Plan(p, e), m, d)(t)
         == if BatchOf(p, t) == RowBatch(p, m) then KeyTileSum(p, e, m, d)(t) * p.ln2 else 0.0
  {
    hide BatchOf, RowBatch, KeyBegin, KeyEnd, Programs, DqTerms;
  }

  /** Programs of other batches add nothing; those of the row's own batch add their tile's share. */
  lemma WindowSum(p: Problem, e: real -> real, m: int, d: int, programs: nat, first: int, last: int)
    requires Valid(p) && 0 <= m < p.batch * p.mDim && 0 <= d < p.headDim
    requires 0 <= first <= last <= programs
    requires forall t :: 0 <= t ==> (BatchOf(p, t) == RowBatch(p, m) <==> first <= t < last)
    ensures Sum(A.IssuedTerms(Plan(p, e), m, d), 0, programs) == Sum(KeyTileSum(p, e, m, d), first, last) * p.ln2
  {
    hide *;
    forall t | 0 <= t < programs
      ensures A.IssuedTerms(Plan(p, e), m, d)(t) == if first <= t < last then KeyTileSum(p, e, m, d)(t) * p.ln2 else 0.0
    {
      IssuedTerm(p, e, m, d, t);
    }
    SumScaledWindow(KeyTileSum(p, e, m, d), A.IssuedTerms(Plan(p, e), m, d), p.ln2, first, last, programs);
  }

  lemma ContributionsSum(p: Problem, e: real -> real, m: int, d: int)
    requires Valid(p) && 0 <= m < p.batch * p.mDim && 0 <= d < p.headDim
    ensures Sum(A.IssuedTerms(Plan(p, e), m, d), 0, Programs(p)) == Dq(p, e, m, d)
  {
    hide BatchOf, RowBatch, Programs, NumTiles, TileAgrees, KeyTileSum, Sum, Plan;
    RowBatchInRange(p, m);
    var b := RowBatch(p, m);
    var first, last := BatchPrograms(p, b);
    KeyTilesSum(p, e, m, d, b, first, last);
    WindowSum(p, e, m, d, Programs(p), first, last);
  }

  /** Any order of the programs' atomic adds leaves each batch's own gradient in dq. */
  lemma RunIsDq(p: Problem, e: real -> real, run: seq<A.State>, order: seq<(int, int, int)>, m: int, d: int)
    requires Valid(p) && 0 <= m < p.batch * p.mDim && 0 <= d < p.headDim
    requires A.IsRun(Plan(p, e), run, order) && A.Complete(Plan(p, e), run[|run| - 1])
    ensures run[|run| - 1].mem(m, d) == Dq(p, e, m, d)
  {
    A.CompleteRunSums(Plan(p, e), run, order, m, d);
    ContributionsSum(p, e, m, d);
  }

  /** Some order of the adds completes. */
  lemma SomeRunCompletes(p: Problem, e: real -> real) returns (run: seq<A.State>, order: seq<(int, int, int)>)
    requires Valid(p)
    ensures A.IsRun(Plan(p, e), run, order) && A.Complete(Plan(p, e), run[|run| - 1])
  {
    var programs, rows := Plan(p, e).programs, p.batch * p.mDim;
    var all := set m: int, d: int, t: int | 0 <= m < rows && 0 <= d < p.headDim && 0 <= t < programs :: (m, d, t);
    run, order := A.CompleteRunExists(Plan(p, e), all);
  }

  // dk and dv.

  function DvTerms(p: Problem, e: real -> real, n: int, d: int): int -> real {
    m => P(p, e, n, m) * p.grad(m, d)
  }

  function DkTerms(p: Problem, e: real -> real, n: int, d: int): int -> real {
    m => Ds(p, e, n, m) * p.q(m, d)
  }

  lemma KeyRowIsInBatch(p: Problem, t: nat, n: int)
    requires Valid(p)
    requires InTile(0, p.batch * p.nDim, p.blockN, t, n)
    ensures t * p.blockN / p.nDim == n / p.nDim
    ensures (n / p.nDim + 1) * p.mDim == n / p.nDim * p.mDim + p.mDim
  {
    TilesPartition(0, p.batch * p.nDim, p.blockN, t, n);
    KeyRowBatch(p, t, n);
  }

  /** The query loop of a program at one key row and column. */
  method KeyRow(p: Problem, e: real -> real, t: nat, n: int, d: int) returns (dk: real, dv: real)
    requires Valid(p)
    requires InTile(0, p.batch * p.nDim, p.blockN, t, n)
    ensures var b := n / p.nDim;
            && dv == Sum(DvTerms(p, e, n, d), b * p.mDim, (b + 1) * p.mDim)
            && dk == Sum(DkTerms(p, e, n, d), b * p.mDim, (b + 1) * p.mDim) * p.smScale
  {
    hide InTile, P, Ds, Dot;
    var batchIdx := t * p.blockN / p.nDim;
    KeyRowIsInBatch(p, t, n);
    var startM := batchIdx * p.mDim;
    var endM := startM + p.mDim;
    var dkAcc, dvAcc, m := 0.0, 0.0, startM;
    while m < endM
      invariant startM <= m <= endM
      invariant dvAcc == Sum(DvTerms(p, e, n, d), startM, m)
      invariant dkAcc == Sum(DkTerms(p, e, n, d), startM, m)
    {
      var next := if m + p.blockM < endM then m + p.blockM else endM;
      SumSplit(DvTerms(p, e, n, d), startM, m, next);
      SumSplit(DkTerms(p, e, n, d), startM, m, next);
      dvAcc := dvAcc + Sum(DvTerms(p, e, n, d), m, next);
      dkAcc := dkAcc + Sum(DkTerms(p, e, n, d), m, next);
      m := next;
    }
    dk, dv := dkAcc * p.smScale, dvAcc;
  }

  // The kernel on arrays.

  function Dv(p: Problem, e: real -> real, n: int, d: int): real
    requires p.nDim > 0
  {
    var b := n / p.nDim;
    Sum(DvTerms(p, e, n, d), b * p.mDim, (b + 1) * p.mDim)
  }

  function Dk(p: Problem, e: real -> real, n: int, d: int): real
    requires p.nDim > 0
  {
    var b := n / p.nDim;
    Sum(DkTerms(p, e, n, d), b * p.mDim, (b + 1) * p.mDim) * p.smScale
  }

  lemma ProgramStart(p: Problem, t: nat)
    requires Valid(p) && t < Programs(p)
    ensures 0 <= KeyBegin(p, t) < p.batch * p.nDim
  {
    CdivCovers(p.batch * p.nDim, p.blockN);
    MulMonotone(0, t, p.blockN);
    MulMonotone(t, Programs(p) - 1, p.blockN);
  }

  lemma ProgramBatch(p: Problem, t: nat)
    requires Valid(p) && t < Programs(p)
    ensures 0 <= BatchOf(p, t) < p.batch
    ensures 0 <= QueryBegin(p, t) && QueryBegin(p, t) + p.mDim <= p.batch * p.mDim
  {
    hide Programs;
    ProgramStart(p, t);
    DivBounds(KeyBegin(p, t), KeyBegin(p, t), p.nDim);
    if BatchOf(p, t) >= p.batch {
      MulMonotone(p.batch, BatchOf(p, t), p.nDim);
    }
    MulMonotone(0, BatchOf(p, t), p.mDim);
    MulMonotone(BatchOf(p, t) + 1, p.batch, p.mDim);
    NextMultiple(BatchOf(p, t), p.mDim);
  }

  lemma RowOfBatch(p: Problem, t: nat, m: int)
    requires Valid(p) && 0 <= m
    ensures BatchOf(p, t) == RowBatch(p, m) <==> QueryBegin(p, t) <= m < QueryBegin(p, t) + p.mDim
  {
    hide BatchOf;
    DivBounds(m, m, p.mDim);
    NextMultiple(BatchOf(p, t), p.mDim);
    if QueryBegin(p, t) <= m < QueryBegin(p, t) + p.mDim {
      DivUnique(m, BatchOf(p, t), p.mDim);
    }
  }

  /** A program's atomic adds, query tile by query tile: its contribution to each row of its batch, nothing elsewhere. */
  method AddToDq(p: Problem, e: real -> real, t: nat, dq: array2<real>)
    requires Valid(p) && t < Programs(p)
    requires dq.Length0 == p.batch * p.mDim && dq.Length1 == p.headDim
    modifies dq
    ensures forall m, d :: 0 <= m < dq.Length0 && 0 <= d < dq.Length1
                           ==> dq[m, d] == old(dq[m, d]) + A.IssuedTerms(Plan(p, e), m, d)(t)
  {
    hide Contribution, BatchOf, RowBatch, Programs;
    var startM := QueryBegin(p, t);
    var endM := startM + p.mDim;
    ProgramBatch(p, t);
    var m := startM;
    while m < endM
      invariant startM <= m <= endM
      invariant forall i, d :: 0 <= i < dq.Length0 && 0 <= d < dq.Length1
                               ==> dq[i, d] == old(dq[i, d]) + if startM <= i < m then Contribution(p, e, i, d, t) else 0.0
    {
      var next := if m + p.blockM < endM then m + p.blockM else endM;
      forall i, d | m <= i < next && 0 <= d < dq.Length1 {
        dq[i, d] := dq[i, d] + Contribution(p, e, i, d, t);
      }
      m := next;
    }
    forall i, d | 0 <= i < dq.Length0 && 0 <= d < dq.Length1
      ensures A.IssuedTerms(Plan(p, e), i, d)(t) == if startM <= i < endM then Contribution(p, e, i, d, t) else 0.0
    {
      RowOfBatch(p, t, i);
    }
  }

  lemma KeyTileInside(p: Problem, t: nat)
    requires Valid(p) && t < Programs(p)
    ensures 0 <= KeyBegin(p, t) <= KeyEnd(p, t) <= p.batch * p.nDim
    ensures forall n :: KeyBegin(p, t) <= n < KeyEnd(p, t) ==> InTile(0, p.batch * p.nDim, p.blockN, t, n)
    ensures KeyEnd(p, t) == if t + 1 < Programs(p) then KeyBegin(p, t + 1) else p.batch * p.nDim
    ensures KeyBegin(p, 0) == 0
  {
    TilesAdjoin(0, p.batch * p.nDim, p.blockN, t);
  }

  /** A program's stores: the key rows of its own tile and no others. */
  method StoreKeyTile(p: Problem, e: real -> real, t: nat, dk: array2<real>, dv: array2<real>)
    requires Valid(p) && t < Programs(p) && dk != dv
    requires dk.Length0 == dv.Length0 == p.batch * p.nDim && dk.Length1 == dv.Length1 == p.headDim
    modifies dk, dv
    ensures forall n, d :: 0 <= n < dk.Length0 && 0 <= d < dk.Length1 ==>
              && dk[n, d] == (if KeyBegin(p, t) <= n < KeyEnd(p, t) then Dk(p, e, n, d) else old(dk[n, d]))
              && dv[n, d] == (if KeyBegin(p, t) <= n < KeyEnd(p, t) then Dv(p, e, n, d) else old(dv[n, d]))
  {
    hide Sum, DkTerms, DvTerms, Programs, KeyBegin, KeyEnd;
    KeyTileInside(p, t);
    var begin, end := KeyBegin(p, t), KeyEnd(p, t);
    for n := begin to end
      invariant forall i, d :: 0 <= i < dk.Length0 && 0 <= d < dk.Length1 ==>
                  && dk[i, d] == (if begin <= i < n then Dk(p, e, i, d) else old(dk[i, d]))
                  && dv[i, d] == (if begin <= i < n then Dv(p, e, i, d) else old(dv[i, d]))
    {
      for d := 0 to dk.Length1
        invariant forall i, c :: 0 <= i < dk.Length0 && 0 <= c < dk.Length1 ==>
                    && dk[i, c] == (if begin <= i < n || (i == n && c < d) then Dk(p, e, i, c) else old(dk[i, c]))
                    && dv[i, c] == (if begin <= i < n || (i == n && c < d) then Dv(p, e, i, c) else old(dv[i, c]))
      {
        var dkN, dvN := KeyRow(p, e, t, n, d);
        dk[n, d], dv[n, d] := dkN, dvN;
      }
    }
  }

  lemma NothingAdded(p: Problem, e: real -> real)
    requires Valid(p)
    ensures forall m, d :: Sum(A.IssuedTerms(Plan(p, e), m, d), 0, 0) == 0.0
  {
  }

  lemma NextAdded(p: Problem, e: real -> real, t: nat)
    requires Valid(p)
    ensures forall m, d :: Sum(A.IssuedTerms(Plan(p, e), m, d), 0, t + 1)
                        == Sum(A.IssuedTerms(Plan(p, e), m, d), 0, t) + A.IssuedTerms(Plan(p, e), m, d)(t)
  {
    hide Plan;
  }

  /** Without programs there are no key rows. */
  lemma NoPrograms(p: Problem)
    requires Valid(p)
    ensures if 0 < Programs(p) then KeyBegin(p, 0) == 0 else p.batch * p.nDim == 0
  {
    NoTiles(0, p.batch * p.nDim, p.blockN);
    MulMonotone(0, p.batch, p.nDim);
  }

  /**
   * attention_backward, its programs one after the other: dq, dk and dv of every batch. RunIsDq
   * covers the other orders of the additions; the stores of different programs are disjoint.
   */
  method Kernel(p: Problem, e: real -> real) returns (dq: array2<real>, dk: array2<real>, dv: array2<real>)
    requires Valid(p)
    ensures dq.Length0 == p.batch * p.mDim && dq.Length1 == p.headDim
    ensures dk.Length0 == dv.Length0 == p.batch * p.nDim && dk.Length1 == dv.Length1 == p.headDim
    ensures forall m, d :: 0 <= m < dq.Length0 && 0 <= d < dq.Length1 ==> dq[m, d] == Dq(p, e, m, d)
    ensures forall n, d :: 0 <= n < dk.Length0 && 0 <= d < dk.Length1 ==> dk[n, d] == Dk(p, e, n, d) && dv[n, d] == Dv(p, e, n, d)
  {
    hide Sum, Dk, Dv, Dq, Plan, Programs, KeyBegin, KeyEnd, NumTiles;
    dq := new real[p.batch * p.mDim, p.headDim]((m, d) => 0.0);
    dk := new real[p.batch * p.nDim, p.headDim];
    dv := new real[p.batch * p.nDim, p.headDim];
    var done := 0;
    NothingAdded(p, e);
    NoPrograms(p);
    for t := 0 to Programs(p)
      invariant done == (if t < Programs(p) then KeyBegin(p, t) else p.batch * p.nDim)
      invariant forall m, d :: 0 <= m < dq.Length0 && 0 <= d < dq.Length1
                               ==> dq[m, d] == Sum(A.IssuedTerms(Plan(p, e), m, d), 0, t)
      invariant forall n, d :: 0 <= n < done && n < dk.Length0 && 0 <= d < dk.Length1
                               ==> dk[n, d] == Dk(p, e, n, d) && dv[n, d] == Dv(p, e, n, d)
    {
      KeyTileInside(p, t);
      StoreKeyTile(p, e, t, dk, dv);
      AddToDq(p, e, t, dq);
      NextAdded(p, e, t);
      done := KeyEnd(p, t);
    }
    forall m, d | 0 <= m < dq.Length0 && 0 <= d < dq.Length1
      ensures dq[m, d] == Dq(p, e, m, d)
    {
      ContributionsSum(p, e, m, d);
    }
  }
}
