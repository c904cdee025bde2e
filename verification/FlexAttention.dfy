// examples/flex_attention.py: block-sparse attention with a score modifier. The
// kernel walks the full and the partial key blocks that the block mask lists for a
// query tile; the reference is the dense masked softmax of every row.
module FlexAttention {
  import opened Options
  import opened Sums
  import opened Tiling
  import opened OnlineSoftmax

  /** One of the two block lists of a BlockMask: counts, and key-block indices. */
  datatype BlockTable = BlockTable(count: (int, int, int) -> nat, index: (int, int, int, int) -> nat)

  datatype Problem = Problem(
    batch: nat, heads: nat, rows: nat, keys: nat, dim: nat, kvHeads: nat, enableGqa: bool,
    query: (int, int, int, int) -> real, key: (int, int, int, int) -> real, value: (int, int, int, int) -> real,
    scoreMod: (real, int, int, int, int) -> Ext, maskMod: (int, int, int, int) -> bool, scale: real,
    tableBatch: nat, tableHeads: nat, partial: BlockTable, full: Option<BlockTable>,
    blockMaskM: nat, blockMaskN: nat)

  const LOG_2_E := 1.44269504

  /** The shape checks at the head of the kernel. */
  ghost predicate Valid(p: Problem) {
    && p.kvHeads > 0
    && (if p.enableGqa then p.heads % p.kvHeads == 0 else p.kvHeads == p.heads)
    && p.heads / p.kvHeads > 0
    && p.tableBatch > 0 && p.tableHeads > 0
    && p.blockMaskM > 0 && p.blockMaskN > 0
  }

  function KvHead(p: Problem, h: int): int
    requires p.kvHeads > 0 && p.heads / p.kvHeads > 0
  {
    h / (p.heads / p.kvHeads)
  }

  function QkTerms(p: Problem, b: int, h: int, m: int, n: int): int -> real
    requires p.kvHeads > 0 && p.heads / p.kvHeads > 0
  {
    var shared := KvHead(p, h);
    d => p.query(b, h, m, d) * p.key(b, shared, n, d)
  }

  function Qk(p: Problem, b: int, h: int, m: int, n: int): real
    requires p.kvHeads > 0 && p.heads / p.kvHeads > 0
  {
    Sum(QkTerms(p, b, h, m, n), 0, p.dim) * p.scale
  }

  /** score_mod(q . k * scale) * log2(e). */
  function RawScore(p: Problem, b: int, h: int, m: int, n: int): Ext
    requires p.kvHeads > 0 && p.heads / p.kvHeads > 0
  {
    Mul(p.scoreMod(Qk(p, b, h, m, n), b, h, m, n), Fin(LOG_2_E))
  }

  function MaskedScore(p: Problem, b: int, h: int, m: int, n: int): Ext
    requires p.kvHeads > 0 && p.heads / p.kvHeads > 0
  {
    if p.maskMod(b, h, m, n) then RawScore(p, b, h, m, n) else NegInf
  }

  /** The scores and values of one query row, as functions of the key. */
  function RowScores(p: Problem, b: int, h: int, m: int): int -> Ext
    requires p.kvHeads > 0 && p.heads / p.kvHeads > 0
  {
    n => MaskedScore(p, b, h, m, n)
  }

  function HeadValues(p: Problem, b: int, h: int): (int, int) -> real
    requires p.kvHeads > 0 && p.heads / p.kvHeads > 0
  {
    (n, d) => p.value(b, KvHead(p, h), n, d)
  }

  // The block walk.

  function Listed(p: Problem, t: BlockTable, b: int, h: int, sparseRow: int): (blocks: seq<nat>)
    requires p.tableBatch > 0 && p.tableHeads > 0
    ensures |blocks| == t.count(b % p.tableBatch, h % p.tableHeads, sparseRow)
  {
    var tb, th := b % p.tableBatch, h % p.tableHeads;
    seq(t.count(tb, th, sparseRow), i => t.index(tb, th, sparseRow, i))
  }

  function FullBlocks(p: Problem, b: int, h: int, sparseRow: int): seq<nat>
    requires p.tableBatch > 0 && p.tableHeads > 0
  {
    match p.full
    case None => []
    case Some(t) => Listed(p, t, b, h, sparseRow)
  }

  function PartialBlocks(p: Problem, b: int, h: int, sparseRow: int): seq<nat>
    requires p.tableBatch > 0 && p.tableHeads > 0
  {
    Listed(p, p.partial, b, h, sparseRow)
  }

  function BlockEnd(p: Problem, block: nat): int {
    if (block + 1) * p.blockMaskN < p.keys then (block + 1) * p.blockMaskN else p.keys
  }

  function BlockKeys(p: Problem, block: nat): seq<int> {
    Range(block * p.blockMaskN, BlockEnd(p, block))
  }

  function Walk(p: Problem, blocks: seq<nat>): seq<int> {
    if blocks == [] then [] else Walk(p, blocks[..|blocks| - 1]) + BlockKeys(p, blocks[|blocks| - 1])
  }

  /** What a BlockMask promises about the table row of a query row. */
  ghost predicate TableDescribesRow(p: Problem, b: int, h: int, m: int, sparseRow: int)
    requires Valid(p)
  {
    var full, all := FullBlocks(p, b, h, sparseRow), FullBlocks(p, b, h, sparseRow) + PartialBlocks(p, b, h, sparseRow);
    && (forall i, j :: 0 <= i < j < |all| ==> all[i] != all[j])
    && (forall n :: 0 <= n < p.keys && n / p.blockMaskN in full ==> p.maskMod(b, h, m, n))
    && (forall n :: 0 <= n < p.keys && n / p.blockMaskN !in all ==> !p.maskMod(b, h, m, n))
  }

  ghost predicate TablesDescribeMask(p: Problem)
    requires Valid(p)
  {
    forall b, h, m :: 0 <= b < p.batch && 0 <= h < p.heads && 0 <= m < p.rows
                      ==> TableDescribesRow(p, b, h, m, m / p.blockMaskM)
  }

  /** The sizes for which the table row of a tile's first query row serves all its rows. */
  predicate Aligned(p: Problem, blockM: nat)
    requires blockM > 0 && p.blockMaskM > 0
  {
    p.rows <= p.blockMaskM || p.blockMaskM % blockM == 0
  }

  lemma TileNotBelow(tile: int, first: int, m: int, blockM: nat, start: int, c: nat, q: int, maskBlock: nat)
    requires first == q * c && maskBlock == c * blockM && start == q * maskBlock
    requires start <= m < (tile + 1) * blockM
    ensures start <= tile * blockM
  {
    assert start == first * blockM;
    if tile < first {
      MulMonotone(tile + 1, first, blockM);
    } else {
      MulMonotone(first, tile, blockM);
    }
  }

  /** A tile of a mask block that is c tiles long begins in the mask block of each of its rows. */
  lemma TileInMaskBlock(m: int, blockM: nat, c: nat, maskBlock: nat)
    requires 0 <= m && blockM > 0 && maskBlock > 0 && maskBlock == c * blockM
    ensures m / blockM * blockM / maskBlock == m / maskBlock
  {
    var q, tile := m / maskBlock, m / blockM;
    DivBounds(m, m, maskBlock);
    DivBounds(m, m, blockM);
    TileNotBelow(tile, q * c, m, blockM, q * maskBlock, c, q, maskBlock);
    DivUnique(tile * blockM, q, maskBlock);
  }

  /** `sparse_row = tile_m.begin // block_mask_m` is every row's own table row exactly when Aligned. */
  lemma SparseRowIsSharedIffAligned(p: Problem, blockM: nat)
    requires blockM > 0 && p.blockMaskM > 0
    ensures Aligned(p, blockM)
            <==> forall m :: 0 <= m < p.rows ==> m / blockM * blockM / p.blockMaskM == m / p.blockMaskM
  {
    var maskBlock := p.blockMaskM;
    if Aligned(p, blockM) {
      forall m | 0 <= m < p.rows
        ensures m / blockM * blockM / maskBlock == m / maskBlock
      {
        if p.rows <= maskBlock {
          DivBounds(m, m, blockM);
          DivUnique(m / blockM * blockM, 0, maskBlock);
          DivUnique(m, 0, maskBlock);
        } else {
          DivMod(maskBlock, blockM);
          TileInMaskBlock(m, blockM, maskBlock / blockM, maskBlock);
        }
      }
    } else {
      // The first row of the second table row starts inside a tile.
      var m := maskBlock;
      DivBounds(m, m, blockM);
      DivMod(m, blockM);
      DivUnique(m / blockM * blockM, 0, maskBlock);
      DivUnique(m, 1, maskBlock);
      assert m / blockM * blockM / maskBlock != m / maskBlock;
    }
  }

  lemma BlockKeysMember(p: Problem, block: nat, n: int)
    requires p.blockMaskN > 0
    ensures n in BlockKeys(p, block) <==> 0 <= n < p.keys && n / p.blockMaskN == block
  {
    var lo, r := block * p.blockMaskN, BlockKeys(p, block);
    MulMonotone(0, block, p.blockMaskN);
    if 0 <= n < p.keys && n / p.blockMaskN == block {
      DivBounds(n, n, p.blockMaskN);
      assert r[n - lo] == n;
    }
    if n in r {
      DivUnique(n, block, p.blockMaskN);
    }
  }

  lemma {:induction false} WalkMembers(p: Problem, blocks: seq<nat>, n: int)
    requires p.blockMaskN > 0
    ensures n in Walk(p, blocks) <==> 0 <= n < p.keys && n / p.blockMaskN in blocks
  {
    if blocks != [] {
      var front, last := blocks[..|blocks| - 1], blocks[|blocks| - 1];
      assert blocks == front + [last];
      WalkMembers(p, front, n);
      BlockKeysMember(p, last, n);
    }
  }

  lemma {:induction false} WalkDistinct(p: Problem, blocks: seq<nat>)
    requires p.blockMaskN > 0
    requires forall i, j :: 0 <= i < j < |blocks| ==> blocks[i] != blocks[j]
    ensures forall i, j :: 0 <= i < j < |Walk(p, blocks)| ==> Walk(p, blocks)[i] != Walk(p, blocks)[j]
  {
    if blocks != [] {
      var front, last := blocks[..|blocks| - 1], blocks[|blocks| - 1];
      WalkDistinct(p, front);
      var done, next, all := Walk(p, front), BlockKeys(p, last), Walk(p, blocks);
      forall i, j | 0 <= i < j < |all|
        ensures all[i] != all[j]
      {
        if i < |done| <= j {
          assert all[i] == done[i] && all[j] == next[j - |done|];
          WalkMembers(p, front, done[i]);
          BlockKeysMember(p, last, next[j - |done|]);
        }
      }
    }
  }

  /** Walking the listed blocks visits each visible key once. */
  lemma WalkCovers(p: Problem, b: int, h: int, m: int, sparseRow: int)
    requires Valid(p) && TableDescribesRow(p, b, h, m, sparseRow)
    ensures Covers(RowScores(p, b, h, m), Walk(p, FullBlocks(p, b, h, sparseRow) + PartialBlocks(p, b, h, sparseRow)), p.keys)
  {
    var all := FullBlocks(p, b, h, sparseRow) + PartialBlocks(p, b, h, sparseRow);
    var keys, s := Walk(p, all), RowScores(p, b, h, m);
    WalkDistinct(p, all);
    forall i | 0 <= i < |keys|
      ensures 0 <= keys[i] < p.keys
    {
      WalkMembers(p, all, keys[i]);
    }
    forall n | 0 <= n < p.keys && n !in keys
      ensures s(n).NegInf?
    {
      WalkMembers(p, all, n);
    }
  }

  // One program of the grid: a batch, a head and a tile of query rows.

  function ScoreTile(p: Problem, b: int, h: int, m: int, lo: int, hi: int, masked: bool): (qk: seq<Ext>)
    requires p.kvHeads > 0 && p.heads / p.kvHeads > 0
    requires lo < hi
    ensures |qk| == hi - lo
  {
    seq(hi - lo, j => if masked then MaskedScore(p, b, h, m, lo + j) else RawScore(p, b, h, m, lo + j))
  }

  function ValueTile(p: Problem, b: int, h: int, lo: int, hi: int): (v: seq<seq<real>>)
    requires p.kvHeads > 0 && p.heads / p.kvHeads > 0
    requires lo < hi
    ensures |v| == p.dim && forall d :: 0 <= d < |v| ==> |v[d]| == hi - lo
  {
    seq(p.dim, d => seq(hi - lo, j => p.value(b, KvHead(p, h), lo + j, d)))
  }

  /** The loop body for one key tile: every row of the query tile takes a guarded step. */
  function TileStep(p: Problem, e: real -> real, b: int, h: int, begin: int, state: seq<Row>, lo: int, hi: int,
                    masked: bool): (next: seq<Row>)
    requires p.kvHeads > 0 && p.heads / p.kvHeads > 0
    requires lo < hi
    requires forall r :: 0 <= r < |state| ==> |state[r].acc| == p.dim
    ensures |next| == |state|
  {
    seq(|state|, r requires 0 <= r < |state| =>
      SafeStep(e, state[r], ScoreTile(p, b, h, begin + r, lo, hi, masked), ValueTile(p, b, h, lo, hi)))
  }

  ghost predicate RowRepresents(p: Problem, e: real -> real, b: int, h: int, m: int, seen: seq<int>, row: Row)
    requires p.kvHeads > 0 && p.heads / p.kvHeads > 0
  {
    Represents(e, RowScores(p, b, h, m), HeadValues(p, b, h), seen, p.dim, row)
  }

  ghost predicate StateRepresents(p: Problem, e: real -> real, b: int, h: int, begin: int, seen: seq<int>, state: seq<Row>)
    requires p.kvHeads > 0 && p.heads / p.kvHeads > 0
  {
    forall r :: 0 <= r < |state| ==> RowRepresents(p, e, b, h, begin + r, seen, state[r])
  }

  /** Every key of lo..hi is visible to every row of the query tile. */
  ghost predicate AllVisible(p: Problem, b: int, h: int, begin: int, end: int, lo: int, hi: int) {
    forall m, n :: begin <= m < end && lo <= n < hi ==> p.maskMod(b, h, m, n)
  }

  lemma TileHoldsScores(p: Problem, b: int, h: int, m: int, lo: int, hi: int, masked: bool)
    requires Valid(p)
    requires lo < hi
    requires masked || AllVisible(p, b, h, m, m + 1, lo, hi)
    ensures TileOf(RowScores(p, b, h, m), HeadValues(p, b, h), Range(lo, hi), p.dim,
                   ScoreTile(p, b, h, m, lo, hi, masked), ValueTile(p, b, h, lo, hi))
  {
    var qk, s := ScoreTile(p, b, h, m, lo, hi, masked), RowScores(p, b, h, m);
    forall j | 0 <= j < hi - lo
      ensures qk[j] == s(Range(lo, hi)[j])
    {
      assert !masked ==> p.maskMod(b, h, m, lo + j);
    }
  }

  lemma RowIsVisible(p: Problem, b: int, h: int, begin: int, r: int, rows: nat, lo: int, hi: int, masked: bool)
    requires 0 <= r < rows
    requires masked || AllVisible(p, b, h, begin, begin + rows, lo, hi)
    ensures masked || AllVisible(p, b, h, begin + r, begin + r + 1, lo, hi)
  {
  }

  lemma RowStepExtends(p: Problem, e: real -> real, b: int, h: int, m: int, seen: seq<int>, row: Row, lo: int, hi: int, masked: bool)
    requires Valid(p) && IsExp(e)
    requires lo < hi
    requires RowRepresents(p, e, b, h, m, seen, row)
    requires masked || AllVisible(p, b, h, m, m + 1, lo, hi)
    ensures RowRepresents(p, e, b, h, m, seen + Range(lo, hi),
                          SafeStep(e, row, ScoreTile(p, b, h, m, lo, hi, masked), ValueTile(p, b, h, lo, hi)))
  {
    TileHoldsScores(p, b, h, m, lo, hi, masked);
    SafeStepExtends(e, RowScores(p, b, h, m), HeadValues(p, b, h), seen, Range(lo, hi), p.dim,
                    row, ScoreTile(p, b, h, m, lo, hi, masked), ValueTile(p, b, h, lo, hi));
  }

  /** A key tile of a listed block adds its keys to every row; unmasked tiles need every key visible. */
  lemma TileStepExtends(p: Problem, e: real -> real, b: int, h: int, begin: int, seen: seq<int>, state: seq<Row>,
                        lo: int, hi: int, masked: bool)
    requires Valid(p) && IsExp(e)
    requires lo < hi
    requires StateRepresents(p, e, b, h, begin, seen, state)
    requires masked || AllVisible(p, b, h, begin, begin + |state|, lo, hi)
    ensures StateRepresents(p, e, b, h, begin, seen + Range(lo, hi), TileStep(p, e, b, h, begin, state, lo, hi, masked))
  {
    hide SafeStep, ScoreTile, ValueTile, IsExp, MaxOf, Mass;
    forall r | 0 <= r < |state|
      ensures RowRepresents(p, e, b, h, begin + r, seen + Range(lo, hi), TileStep(p, e, b, h, begin, state, lo, hi, masked)[r])
    {
      RowIsVisible(p, b, h, begin, r, |state|, lo, hi, masked);
      RowStepExtends(p, e, b, h, begin + r, seen, state[r], lo, hi, masked);
    }
  }

  /** The inner loop over the keys start_n..end_n, in tiles of block_n. */
  method WalkKeys(p: Problem, e: real -> real, b: int, h: int, begin: int, state: seq<Row>, startN: int, endN: int,
                  blockN: nat, masked: bool, ghost seen: seq<int>)
    returns (next: seq<Row>)
    requires Valid(p) && IsExp(e) && blockN > 0
    requires StateRepresents(p, e, b, h, begin, seen, state)
    requires masked || AllVisible(p, b, h, begin, begin + |state|, startN, endN)
    ensures |next| == |state|
    ensures StateRepresents(p, e, b, h, begin, seen + Range(startN, endN), next)
  {
    next := state;
    var lo := startN;
    assert seen + Range(startN, lo) == seen;
    while lo < endN
      invariant startN <= lo && (lo <= endN || lo == startN)
      invariant |next| == |state|
      invariant StateRepresents(p, e, b, h, begin, seen + Range(startN, lo), next)
    {
      var hi := if lo + blockN < endN then lo + blockN else endN;
      TileStepExtends(p, e, b, h, begin, seen + Range(startN, lo), next, lo, hi, masked);
      assert seen + Range(startN, lo) + Range(lo, hi) == seen + Range(startN, hi);
      next := TileStep(p, e, b, h, begin, next, lo, hi, masked);
      lo := hi;
    }
    assert Range(startN, lo) == Range(startN, endN);
  }

  /** One listed block: its first key, and its end clipped to the number of keys. */
  method WalkBlock(p: Problem, e: real -> real, b: int, h: int, begin: int, state: seq<Row>, block: nat,
                   blockN: nat, masked: bool, ghost seen: seq<int>)
    returns (next: seq<Row>)
    requires Valid(p) && IsExp(e) && blockN > 0
    requires StateRepresents(p, e, b, h, begin, seen, state)
    requires masked || AllVisible(p, b, h, begin, begin + |state|, block * p.blockMaskN, BlockEnd(p, block))
    ensures |next| == |state|
    ensures StateRepresents(p, e, b, h, begin, seen + BlockKeys(p, block), next)
  {
    hide StateRepresents, AllVisible, Valid, IsExp;
    var startN := block * p.blockMaskN;
    var endN := startN + p.blockMaskN;
    if p.keys < endN {
      endN := p.keys;
    }
    assert endN == BlockEnd(p, block);
    next := WalkKeys(p, e, b, h, begin, state, startN, endN, blockN, masked, seen);
  }

  /** What the unmasked loop relies on: the blocks of the full list are visible to the whole tile. */
  ghost predicate FullBlocksVisible(p: Problem, b: int, h: int, begin: int, end: int, sparseRow: int)
    requires p.tableBatch > 0 && p.tableHeads > 0
  {
    forall block :: block in FullBlocks(p, b, h, sparseRow) ==>
      AllVisible(p, b, h, begin, end, block * p.blockMaskN, BlockEnd(p, block))
  }

  lemma FullBlockIsVisible(p: Problem, b: int, h: int, begin: int, end: int, sparseRow: int)
    requires Valid(p)
    requires forall m :: begin <= m < end ==> TableDescribesRow(p, b, h, m, sparseRow)
    ensures FullBlocksVisible(p, b, h, begin, end, sparseRow)
  {
    forall block, m, n | block in FullBlocks(p, b, h, sparseRow) && begin <= m < end
                         && block * p.blockMaskN <= n < BlockEnd(p, block)
      ensures p.maskMod(b, h, m, n)
    {
      assert TableDescribesRow(p, b, h, m, sparseRow);
      assert BlockKeys(p, block)[n - block * p.blockMaskN] == n;
      BlockKeysMember(p, block, n);
    }
  }

  lemma WalkAppend(p: Problem, blocks: seq<nat>, block: nat)
    ensures Walk(p, blocks + [block]) == Walk(p, blocks) + BlockKeys(p, block)
  {
    assert (blocks + [block])[..|blocks|] == blocks;
  }

  /** One of the two outer loops: the blocks of a list in order, after the blocks done before. */
  method WalkList(p: Problem, e: real -> real, b: int, h: int, begin: int, state: seq<Row>, blocks: seq<nat>,
                  blockN: nat, masked: bool, ghost before: seq<nat>)
    returns (next: seq<Row>)
    requires Valid(p) && IsExp(e) && blockN > 0
    requires StateRepresents(p, e, b, h, begin, Walk(p, before), state)
    requires forall block :: block in blocks ==>
               masked || AllVisible(p, b, h, begin, begin + |state|, block * p.blockMaskN, BlockEnd(p, block))
    ensures |next| == |state|
    ensures StateRepresents(p, e, b, h, begin, Walk(p, before + blocks), next)
  {
    hide Walk, StateRepresents, AllVisible, IsExp, BlockEnd, BlockKeys;
    next := state;
    var i := 0;
    assert before + blocks[..0] == before;
    while i < |blocks|
      invariant 0 <= i <= |blocks|
      invariant |next| == |state|
      invariant StateRepresents(p, e, b, h, begin, Walk(p, before + blocks[..i]), next)
    {
      WalkAppend(p, before + blocks[..i], blocks[i]);
      assert before + blocks[..i + 1] == before + blocks[..i] + [blocks[i]];
      assert blocks[i] in blocks;
      next := WalkBlock(p, e, b, h, begin, next, blocks[i], blockN, masked, Walk(p, before + blocks[..i]));
      i := i + 1;
    }
    assert blocks[..i] == blocks;
  }

  /** Both loops of one program: full blocks without a mask, then partial blocks with it. */
  method WalkLists(p: Problem, e: real -> real, b: int, h: int, begin: int, end: int, blockN: nat)
    returns (state: seq<Row>)
    requires Valid(p) && IsExp(e) && blockN > 0
    requires begin <= end
    requires FullBlocksVisible(p, b, h, begin, end, begin / p.blockMaskM)
    ensures |state| == end - begin
    ensures var sparseRow := begin / p.blockMaskM;
            StateRepresents(p, e, b, h, begin, Walk(p, FullBlocks(p, b, h, sparseRow) + PartialBlocks(p, b, h, sparseRow)), state)
  {
    var sparseRow := begin / p.blockMaskM;
    state := seq(end - begin, _ => InitRow(p.dim));
    var full, partial := FullBlocks(p, b, h, sparseRow), PartialBlocks(p, b, h, sparseRow);
    assert [] + full == full;
    state := WalkList(p, e, b, h, begin, state, full, blockN, false, []);
    state := WalkList(p, e, b, h, begin, state, partial, blockN, true, full);
  }

  // The epilogue and the kernel.

  function FinalSum(row: Row): Ext {
    if row.l == Fin(0.0) then Fin(1.0) else row.l
  }

  function FinalLse(log: real -> real, row: Row): Ext {
    Div(Add(row.m, Log(log, FinalSum(row))), Fin(LOG_2_E))
  }

  /**
   * The dense masked softmax of row m: zeros when no key is visible, NaN when a visible score is
   * NaN or plus infinity.
   */
  ghost predicate IsDenseSoftmax(p: Problem, e: real -> real, b: int, h: int, m: int, out: seq<Ext>)
    requires p.kvHeads > 0 && p.heads / p.kvHeads > 0
  {
    var s, v := RowScores(p, b, h, m), HeadValues(p, b, h);
    var total := Numerator(e, s, One(), p.keys);
    && |out| == p.dim
    && if SomeNaN(s, p.keys) || SomePosInf(s, p.keys) then
         forall d :: 0 <= d < p.dim ==> out[d] == NaN
       else if SomeVisible(s, p.keys) then
         && total > 0.0
         && forall d :: 0 <= d < p.dim ==> out[d] == Fin(Numerator(e, s, Column(v, d), p.keys) / total)
       else
         forall d :: 0 <= d < p.dim ==> out[d] == Fin(0.0)
  }

  /**
   * The natural log-sum-exp of row m: `e` is exp2 and scores carry the factor log2(e), so
   * e(lse * LOG_2_E) is exp(lse).
   */
  ghost predicate IsLogSumExp(p: Problem, e: real -> real, b: int, h: int, m: int, lse: Ext)
    requires p.kvHeads > 0 && p.heads / p.kvHeads > 0
  {
    var s := RowScores(p, b, h, m);
    if SomeNaN(s, p.keys) then lse == NaN
    else if SomePosInf(s, p.keys) then lse == PosInf
    else if SomeVisible(s, p.keys) then lse.Fin? && e(lse.v * LOG_2_E) == Numerator(e, s, One(), p.keys)
    else lse == NegInf
  }

  /** A visible score is plus infinity and none is NaN. */
  ghost predicate Overflows(p: Problem, b: int, h: int, m: int)
    requires p.kvHeads > 0 && p.heads / p.kvHeads > 0
  {
    var s := RowScores(p, b, h, m);
    SomePosInf(s, p.keys) && !SomeNaN(s, p.keys)
  }

  /** What the kernel stores: the dense softmax always, and its log-sum-exp exactly when the row does not overflow. */
  ghost predicate IsStored(p: Problem, e: real -> real, b: int, h: int, m: int, out: seq<Ext>, lse: Ext)
    requires p.kvHeads > 0 && p.heads / p.kvHeads > 0
  {
    && IsDenseSoftmax(p, e, b, h, m, out)
    && (IsLogSumExp(p, e, b, h, m, lse) <==> !Overflows(p, b, h, m))
    && (Overflows(p, b, h, m) ==> lse == NaN)
  }

  function FinalRow(row: Row): (out: seq<Ext>)
    ensures |out| == |row.acc|
  {
    seq(|row.acc|, d requires 0 <= d < |row.acc| => Div(row.acc[d], FinalSum(row)))
  }

  /** The epilogue is acc / l and m + log(l), except that a row that has seen nothing divides by one. */
  lemma Epilogue(e: real -> real, log: real -> real, s: int -> Ext, v: (int, int) -> real, keys: seq<int>, dim: nat, row: Row)
    requires Represents(e, s, v, keys, dim, row) && IsExp(e) && IsLog(e, log)
    requires row.m.Fin? ==> row.l.Fin? && row.l.v >= 1.0
    ensures |FinalRow(row)| == |Normalised(row)| == dim
    ensures row.m.NegInf? ==> (forall d :: 0 <= d < dim ==> FinalRow(row)[d] == Fin(0.0)) && FinalLse(log, row) == NegInf
    ensures !row.m.NegInf? ==> forall d :: 0 <= d < dim ==> FinalRow(row)[d] == Normalised(row)[d]
    ensures !IsProper(row.m) ==> row.l == NaN && FinalLse(log, row) == NaN
    ensures row.m.Fin? ==> Add(row.m, Log(log, row.l)).Fin? && FinalLse(log, row).Fin?
                           && FinalLse(log, row).v * LOG_2_E == Add(row.m, Log(log, row.l)).v
  {
    hide Mass, MaxOf, IsExp, IsLog;
  }

  /** The epilogue turns a row that has seen the whole walk into the dense softmax. */
  lemma FinalRowIsDense(p: Problem, e: real -> real, log: real -> real, b: int, h: int, m: int, sparseRow: int, row: Row)
    requires Valid(p) && IsExp(e) && IsLog(e, log)
    requires TableDescribesRow(p, b, h, m, sparseRow)
    requires Represents(e, RowScores(p, b, h, m), HeadValues(p, b, h),
                        Walk(p, FullBlocks(p, b, h, sparseRow) + PartialBlocks(p, b, h, sparseRow)), p.dim, row)
    ensures IsStored(p, e, b, h, m, FinalRow(row), FinalLse(log, row))
  {
    hide Represents, Covers, Walk, TableDescribesRow, FullBlocks, PartialBlocks, RowScores, HeadValues, Numerator,
         SomeNaN, SomePosInf, SomeVisible, IsExp, IsLog, FinalRow, FinalSum, FinalLse, Normalised, Add, Log;
    var s, v := RowScores(p, b, h, m), HeadValues(p, b, h);
    var keys := Walk(p, FullBlocks(p, b, h, sparseRow) + PartialBlocks(p, b, h, sparseRow));
    WalkCovers(p, b, h, m, sparseRow);
    RowIsSoftmax(e, log, s, v, keys, p.keys, p.dim, row);
    Epilogue(e, log, s, v, keys, p.dim, row);
  }

  predicate Shaped(p: Problem, out: array4<Ext>, lse: array3<Ext>) {
    && out.Length0 == lse.Length0 == p.batch
    && out.Length1 == lse.Length1 == p.heads
    && out.Length2 == lse.Length2 == p.rows
    && out.Length3 == p.dim
  }

  /** Row m of the outputs is stored. */
  ghost predicate RowDone(p: Problem, e: real -> real, out: array4<Ext>, lse: array3<Ext>, b: int, h: int, m: int)
    requires p.kvHeads > 0 && p.heads / p.kvHeads > 0
    requires Shaped(p, out, lse)
    requires 0 <= b < p.batch && 0 <= h < p.heads && 0 <= m < p.rows
    reads out, lse
  {
    IsStored(p, e, b, h, m, seq(p.dim, d requires 0 <= d < p.dim reads out => out[b, h, m, d]), lse[b, h, m])
  }

  lemma TileIsInside(p: Problem, blockM: nat, tile: nat)
    requires blockM > 0 && tile < NumTiles(0, p.rows, blockM)
    ensures 0 <= TileBegin(0, blockM, tile) < TileEnd(0, p.rows, blockM, tile) <= p.rows
  {
    CdivCovers(p.rows, blockM);
    MulMonotone(0, tile, blockM);
    MulMonotone(tile, NumTiles(0, p.rows, blockM) - 1, blockM);
  }

  /** With aligned sizes the table row of the tile's first row describes every row of the tile. */
  lemma TileSharesTableRow(p: Problem, b: nat, h: nat, tile: nat, blockM: nat)
    requires Valid(p) && TablesDescribeMask(p)
    requires blockM > 0 && Aligned(p, blockM)
    requires b < p.batch && h < p.heads && tile < NumTiles(0, p.rows, blockM)
    ensures var begin := TileBegin(0, blockM, tile);
            forall m :: begin <= m < TileEnd(0, p.rows, blockM, tile) ==> TableDescribesRow(p, b, h, m, begin / p.blockMaskM)
  {
    hide TableDescribesRow, NumTiles;
    var begin, end := TileBegin(0, blockM, tile), TileEnd(0, p.rows, blockM, tile);
    TileIsInside(p, blockM, tile);
    SparseRowIsSharedIffAligned(p, blockM);
    forall m | begin <= m < end
      ensures TableDescribesRow(p, b, h, m, begin / p.blockMaskM)
    {
      TilesPartition(0, p.rows, blockM, tile, m);
      assert m / blockM * blockM == begin;
    }
  }

  lemma RowOfState(p: Problem, e: real -> real, b: int, h: int, begin: int, seen: seq<int>, state: seq<Row>, r: int)
    requires p.kvHeads > 0 && p.heads / p.kvHeads > 0
    requires StateRepresents(p, e, b, h, begin, seen, state) && 0 <= r < |state|
    ensures Represents(e, RowScores(p, b, h, begin + r), HeadValues(p, b, h), seen, p.dim, state[r])
    ensures |state[r].acc| == p.dim
  {
  }

  lemma StateIsDense(p: Problem, e: real -> real, log: real -> real, b: int, h: int, begin: int, end: int, state: seq<Row>, m: int)
    requires Valid(p) && IsExp(e) && IsLog(e, log)
    requires begin <= m < end && |state| == end - begin
    requires forall i :: begin <= i < end ==> TableDescribesRow(p, b, h, i, begin / p.blockMaskM)
    requires var sparseRow := begin / p.blockMaskM;
             StateRepresents(p, e, b, h, begin, Walk(p, FullBlocks(p, b, h, sparseRow) + PartialBlocks(p, b, h, sparseRow)), state)
    ensures |state[m - begin].acc| == p.dim
    ensures IsStored(p, e, b, h, m, FinalRow(state[m - begin]), FinalLse(log, state[m - begin]))
  {
    hide TableDescribesRow, IsDenseSoftmax, IsStored, Walk, IsExp, IsLog, FinalLse, FinalRow, StateRepresents, RowRepresents;
    var sparseRow := begin / p.blockMaskM;
    var seen := Walk(p, FullBlocks(p, b, h, sparseRow) + PartialBlocks(p, b, h, sparseRow));
    RowOfState(p, e, b, h, begin, seen, state, m - begin);
    FinalRowIsDense(p, e, log, b, h, m, sparseRow, state[m - begin]);
  }

  /** One program stores its rows and no others. */
  method Program(p: Problem, e: real -> real, log: real -> real, b: nat, h: nat, tile: nat, blockM: nat, blockN: nat,
                 out: array4<Ext>, lse: array3<Ext>)
    requires Valid(p) && IsExp(e) && IsLog(e, log)
    requires TablesDescribeMask(p)
    requires blockM > 0 && blockN > 0 && Aligned(p, blockM)
    requires Shaped(p, out, lse)
    requires b < p.batch && h < p.heads && tile < NumTiles(0, p.rows, blockM)
    modifies out, lse
    ensures forall m :: InTile(0, p.rows, blockM, tile, m) ==> RowDone(p, e, out, lse, b, h, m)
    ensures forall b', h', m', d | 0 <= b' < p.batch && 0 <= h' < p.heads && 0 <= m' < p.rows && 0 <= d < p.dim
                                   && !(b' == b && h' == h && InTile(0, p.rows, blockM, tile, m')) ::
              out[b', h', m', d] == old(out[b', h', m', d])
    ensures forall b', h', m' | 0 <= b' < p.batch && 0 <= h' < p.heads && 0 <= m' < p.rows
                                && !(b' == b && h' == h && InTile(0, p.rows, blockM, tile, m')) ::
              lse[b', h', m'] == old(lse[b', h', m'])
  {
    hide StateRepresents, RowRepresents, IsDenseSoftmax, IsStored, TableDescribesRow, TablesDescribeMask, Walk, Represents, IsExp,
         IsLog, NumTiles, FinalLse, FinalSum, FullBlocksVisible;
    var begin, end := TileBegin(0, blockM, tile), TileEnd(0, p.rows, blockM, tile);
    TileIsInside(p, blockM, tile);
    TileSharesTableRow(p, b, h, tile, blockM);
    FullBlockIsVisible(p, b, h, begin, end, begin / p.blockMaskM);
    var state := WalkLists(p, e, b, h, begin, end, blockN);
    forall r | 0 <= r < end - begin
      ensures |state[r].acc| == p.dim
    {
      StateIsDense(p, e, log, b, h, begin, end, state, begin + r);
    }
    forall r, d | 0 <= r < end - begin && 0 <= d < p.dim {
      out[b, h, begin + r, d] := Div(state[r].acc[d], FinalSum(state[r]));
    }
    forall r | 0 <= r < end - begin {
      lse[b, h, begin + r] := FinalLse(log, state[r]);
    }
    forall m | InTile(0, p.rows, blockM, tile, m)
      ensures RowDone(p, e, out, lse, b, h, m)
    {
      var row := state[m - begin];
      StateIsDense(p, e, log, b, h, begin, end, state, m);
      assert seq(p.dim, d requires 0 <= d < p.dim reads out => out[b, h, m, d]) == FinalRow(row);
      assert lse[b, h, m] == FinalLse(log, row);
    }
  }

  /** The program of row m is among those that have run. */
  ghost predicate Ran(p: Problem, done: seq<(nat, nat, nat)>, blockM: nat, b: int, h: int, m: int)
    requires blockM > 0
  {
    exists i :: 0 <= i < |done| && done[i].0 == b && done[i].1 == h && InTile(0, p.rows, blockM, done[i].2, m)
  }

  /** Every row of a program that has run is stored. */
  ghost predicate RanDone(p: Problem, e: real -> real, out: array4<Ext>, lse: array3<Ext>, done: seq<(nat, nat, nat)>, blockM: nat)
    requires p.kvHeads > 0 && p.heads / p.kvHeads > 0 && blockM > 0 && Shaped(p, out, lse)
    reads out, lse
  {
    forall b, h, m :: 0 <= b < p.batch && 0 <= h < p.heads && 0 <= m < p.rows && Ran(p, done, blockM, b, h, m)
                      ==> RowDone(p, e, out, lse, b, h, m)
  }

  lemma RanBefore(p: Problem, done: seq<(nat, nat, nat)>, next: (nat, nat, nat), blockM: nat, b: int, h: int, m: int)
    requires blockM > 0
    ensures Ran(p, done + [next], blockM, b, h, m)
            <==> Ran(p, done, blockM, b, h, m) || (next.0 == b && next.1 == h && InTile(0, p.rows, blockM, next.2, m))
  {
    hide InTile;
    var all := done + [next];
    assert all[|done|] == next;
    assert forall i :: 0 <= i < |done| ==> all[i] == done[i];
  }

  /** One more program leaves the rows of the earlier ones as they are. */
  method NextProgram(p: Problem, e: real -> real, log: real -> real, done: seq<(nat, nat, nat)>, next: (nat, nat, nat),
                     blockM: nat, blockN: nat, out: array4<Ext>, lse: array3<Ext>)
    requires Valid(p) && IsExp(e) && IsLog(e, log)
    requires TablesDescribeMask(p)
    requires blockM > 0 && blockN > 0 && Aligned(p, blockM)
    requires next.0 < p.batch && next.1 < p.heads && next.2 < NumTiles(0, p.rows, blockM)
    requires Shaped(p, out, lse) && RanDone(p, e, out, lse, done, blockM)
    modifies out, lse
    ensures RanDone(p, e, out, lse, done + [next], blockM)
  {
    hide IsStored, IsExp, IsLog, TablesDescribeMask, InTile, Aligned, NumTiles;
    var (b, h, tile) := next;
    Program(p, e, log, b, h, tile, blockM, blockN, out, lse);
    forall b', h', m | 0 <= b' < p.batch && 0 <= h' < p.heads && 0 <= m < p.rows && Ran(p, done + [next], blockM, b', h', m)
      ensures RowDone(p, e, out, lse, b', h', m)
    {
      RanBefore(p, done, next, blockM, b', h', m);
      if !(b' == b && h' == h && InTile(0, p.rows, blockM, tile, m)) {
        assert old(RowDone(p, e, out, lse, b', h', m));
        assert seq(p.dim, d requires 0 <= d < p.dim reads out => out[b', h', m, d])
            == old(seq(p.dim, d requires 0 <= d < p.dim reads out => out[b', h', m, d]));
      }
    }
  }

  /** An order that reaches every program reaches every row. */
  lemma EveryRowRan(p: Problem, order: seq<(nat, nat, nat)>, blockM: nat, b: nat, h: nat, m: nat)
    requires blockM > 0 && m < p.rows
    requires forall t: nat :: t < NumTiles(0, p.rows, blockM) ==> (b, h, t) in order
    ensures Ran(p, order, blockM, b, h, m)
  {
    hide NumTiles;
    TilesPartition(0, p.rows, blockM, m / blockM, m);
    assert (b, h, m / blockM) in order;
  }

  /**
   * The whole grid, its programs taken in any order: every row of the outputs is stored. Programs
   * read only the inputs and store disjoint rows.
   */
  method Kernel(p: Problem, e: real -> real, log: real -> real, blockM: nat, blockN: nat, order: seq<(nat, nat, nat)>)
    returns (out: array4<Ext>, lse: array3<Ext>)
    requires Valid(p) && IsExp(e) && IsLog(e, log)
    requires TablesDescribeMask(p)
    requires blockM > 0 && blockN > 0 && Aligned(p, blockM)
    requires forall i :: 0 <= i < |order| ==>
               order[i].0 < p.batch && order[i].1 < p.heads && order[i].2 < NumTiles(0, p.rows, blockM)
    requires forall b: nat, h: nat, t: nat :: b < p.batch && h < p.heads && t < NumTiles(0, p.rows, blockM) ==> (b, h, t) in order
    ensures Shaped(p, out, lse)
    ensures forall b, h, m :: 0 <= b < p.batch && 0 <= h < p.heads && 0 <= m < p.rows ==> RowDone(p, e, out, lse, b, h, m)
  {
    hide RowDone, IsExp, IsLog, TablesDescribeMask, Aligned, NumTiles;
    out := new Ext[p.batch, p.heads, p.rows, p.dim];
    lse := new Ext[p.batch, p.heads, p.rows];
    var i := 0;
    while i < |order|
      invariant 0 <= i <= |order|
      invariant fresh(out) && fresh(lse)
      invariant RanDone(p, e, out, lse, order[..i], blockM)
    {
      assert order[..i + 1] == order[..i] + [order[i]];
      NextProgram(p, e, log, order[..i], order[i], blockM, blockN, out, lse);
      i := i + 1;
    }
    assert order[..i] == order;
    forall b, h, m | 0 <= b < p.batch && 0 <= h < p.heads && 0 <= m < p.rows
      ensures RowDone(p, e, out, lse, b, h, m)
    {
      EveryRowRan(p, order, blockM, b, h, m);
    }
  }

  // Without alignment the kernel is wrong on some mask.

  /** One key, hidden from the first table row of queries and visible from the second one on. */
  function SteppedMask(rows: nat, blockMaskM: nat): Problem
    requires blockMaskM > 0
  {
    Problem(1, 1, rows, 1, 1, 1, false,
            (_, _, _, _) => 0.0, (_, _, _, _) => 0.0, (_, _, _, _) => 1.0,
            (x, _, _, _, _) => Fin(x), (_, _, m, _) => m >= blockMaskM, 1.0,
            1, 1,
            BlockTable((_, _, sparseRow) => if sparseRow <= 0 then 0 else 1, (_, _, _, _) => 0), None,
            blockMaskM, 1)
  }

  lemma SteppedRow(rows: nat, blockMaskM: nat, b: int, h: int, m: int, sparseRow: nat)
    requires blockMaskM > 0 && b == 0 && h == 0
    requires sparseRow * blockMaskM <= m < (sparseRow + 1) * blockMaskM
    ensures Valid(SteppedMask(rows, blockMaskM))
    ensures TableDescribesRow(SteppedMask(rows, blockMaskM), b, h, m, sparseRow)
  {
    var p := SteppedMask(rows, blockMaskM);
    assert FullBlocks(p, b, h, sparseRow) == [];
    if sparseRow == 0 {
      assert PartialBlocks(p, b, h, sparseRow) == [];
    } else {
      MulMonotone(1, sparseRow, blockMaskM);
      assert PartialBlocks(p, b, h, sparseRow) == [0];
    }
  }

  lemma SteppedTables(rows: nat, blockMaskM: nat)
    requires blockMaskM > 0
    ensures Valid(SteppedMask(rows, blockMaskM)) && TablesDescribeMask(SteppedMask(rows, blockMaskM))
  {
    var p := SteppedMask(rows, blockMaskM);
    forall b, h, m | 0 <= b < p.batch && 0 <= h < p.heads && 0 <= m < p.rows
      ensures TableDescribesRow(p, b, h, m, m / p.blockMaskM)
    {
      DivBounds(m, m, blockMaskM);
      SteppedRow(rows, blockMaskM, b, h, m, m / blockMaskM);
    }
  }

  /** The tile of row block_mask_m starts in the first table row. */
  lemma FirstTableRow(rows: nat, blockMaskM: nat, blockM: nat)
    requires blockMaskM > 0 && blockM > 0
    requires !Aligned(SteppedMask(rows, blockMaskM), blockM)
    ensures blockMaskM < rows && blockMaskM / blockM * blockM / blockMaskM == 0
  {
    DivBounds(blockMaskM, blockMaskM, blockM);
    assert blockMaskM % blockM == blockMaskM - blockMaskM / blockM * blockM;
    DivUnique(blockMaskM / blockM * blockM, 0, blockMaskM);
  }

  lemma OneVisibleKey(e: real -> real, rows: nat, blockMaskM: nat)
    requires blockMaskM > 0 && IsExp(e)
    ensures var p := SteppedMask(rows, blockMaskM);
            var s, v := RowScores(p, 0, 0, blockMaskM), HeadValues(p, 0, 0);
            && SomeVisible(s, p.keys) && !SomeNaN(s, p.keys) && !SomePosInf(s, p.keys)
            && Numerator(e, s, Column(v, 0), p.keys) == Numerator(e, s, One(), p.keys) > 0.0
  {
    var p := SteppedMask(rows, blockMaskM);
    var s, v := RowScores(p, 0, 0, blockMaskM), HeadValues(p, 0, 0);
    assert s(0).Fin?;
    SumSingle(Terms(e, s, Column(v, 0), 0.0), 0, 1, 0);
    SumSingle(Terms(e, s, One(), 0.0), 0, 1, 0);
  }

  /** The kernel's row stays hidden: zeros and minus infinity, where the softmax is 1. */
  lemma FirstRowIsHidden(e: real -> real, log: real -> real, rows: nat, blockMaskM: nat, row: Row)
    requires blockMaskM > 0 && IsExp(e)
    requires var p := SteppedMask(rows, blockMaskM);
             RowRepresents(p, e, 0, 0, blockMaskM, Walk(p, FullBlocks(p, 0, 0, 0) + PartialBlocks(p, 0, 0, 0)), row)
    ensures var p := SteppedMask(rows, blockMaskM);
            !IsDenseSoftmax(p, e, 0, 0, blockMaskM, FinalRow(row)) && !IsLogSumExp(p, e, 0, 0, blockMaskM, FinalLse(log, row))
  {
    hide Numerator, Log;
    var p := SteppedMask(rows, blockMaskM);
    assert FullBlocks(p, 0, 0, 0) + PartialBlocks(p, 0, 0, 0) == [];
    assert row.m.NegInf?;
    assert FinalRow(row)[0] == Fin(0.0);
    OneVisibleKey(e, rows, blockMaskM);
  }

  /** The converse of Aligned: for any other sizes a valid mask leaves row block_mask_m without its key. */
  lemma MisalignedTileFails(e: real -> real, log: real -> real, rows: nat, blockMaskM: nat, blockM: nat, row: Row)
    requires blockMaskM > 0 && blockM > 0
    requires IsExp(e) && IsLog(e, log)
    requires !Aligned(SteppedMask(rows, blockMaskM), blockM)
    requires var p := SteppedMask(rows, blockMaskM);
             var sparseRow := blockMaskM / blockM * blockM / blockMaskM;
             RowRepresents(p, e, 0, 0, blockMaskM, Walk(p, FullBlocks(p, 0, 0, sparseRow) + PartialBlocks(p, 0, 0, sparseRow)), row)
    ensures var p := SteppedMask(rows, blockMaskM);
            && Valid(p) && TablesDescribeMask(p) && blockMaskM < rows
            && !IsDenseSoftmax(p, e, 0, 0, blockMaskM, FinalRow(row)) && !IsLogSumExp(p, e, 0, 0, blockMaskM, FinalLse(log, row))
  {
    hide Represents, Walk, IsDenseSoftmax, IsStored, TablesDescribeMask, Valid;
    SteppedTables(rows, blockMaskM);
    FirstTableRow(rows, blockMaskM, blockM);
    FirstRowIsHidden(e, log, rows, blockMaskM, row);
  }

  /**
   * The kernel's own loops on that mask, from the initial state: a valid block mask for which the
   * stored row is not its softmax, for every misaligned choice of sizes and every block_n.
   */
  method MisalignedRun(e: real -> real, log: real -> real, rows: nat, blockMaskM: nat, blockM: nat, blockN: nat)
    returns (out: seq<Ext>, lse: Ext)
    requires blockMaskM > 0 && blockM > 0 && blockN > 0
    requires IsExp(e) && IsLog(e, log)
    requires !Aligned(SteppedMask(rows, blockMaskM), blockM)
    ensures var p := SteppedMask(rows, blockMaskM);
            && Valid(p) && TablesDescribeMask(p) && blockMaskM < rows
            && !IsDenseSoftmax(p, e, 0, 0, blockMaskM, out) && !IsLogSumExp(p, e, 0, 0, blockMaskM, lse)
  {
    hide Represents, Walk, IsDenseSoftmax, IsStored, TablesDescribeMask, RowRepresents, IsExp, IsLog, NumTiles;
    var p := SteppedMask(rows, blockMaskM);
    SteppedTables(rows, blockMaskM);
    FirstTableRow(rows, blockMaskM, blockM);
    DivBounds(blockMaskM, rows, blockM);
    var tile := blockMaskM / blockM;
    var begin, end := TileBegin(0, blockM, tile), TileEnd(0, p.rows, blockM, tile);
    var state := WalkLists(p, e, 0, 0, begin, end, blockN);
    var row := state[blockMaskM - begin];
    assert RowRepresents(p, e, 0, 0, begin + (blockMaskM - begin),
        Walk(p, FullBlocks(p, 0, 0, begin / blockMaskM) + PartialBlocks(p, 0, 0, begin / blockMaskM)), row);
    MisalignedTileFails(e, log, rows, blockMaskM, blockM, row);
    out, lse := FinalRow(row), FinalLse(log, row);
  }
}
