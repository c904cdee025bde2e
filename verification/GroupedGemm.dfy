// examples/grouped_gemm.py: the persistent grouped GEMM. Every worker walks all groups
// and takes every num_workers-th tile of each; workers interleave freely. The reference
// multiplies each group on its own and concatenates the results.
module GroupedGemm {
  import opened Sums
  import opened Tiling

  type Rows = seq<seq<real>>

  // Packing and the reference.

  function Concat(groups: seq<Rows>): Rows {
    if groups == [] then [] else Concat(groups[..|groups| - 1]) + groups[|groups| - 1]
  }

  /** Row offset of group g: the rows of all groups before it. */
  function Offset(groups: seq<Rows>, g: nat): nat
    requires g <= |groups|
  {
    |Concat(groups[..g])|
  }

  lemma OffsetStep(groups: seq<Rows>, g: nat)
    requires g < |groups|
    ensures Offset(groups, g + 1) == Offset(groups, g) + |groups[g]|
  {
    assert groups[..g + 1][..g] == groups[..g];
  }

  /** `starts` and A_packed of _pack_group_inputs. */
  method PackGroupInputs(groups: seq<Rows>) returns (starts: seq<nat>, packed: Rows)
    ensures |starts| == |groups| + 1 && starts[0] == 0
    ensures forall g :: 0 <= g < |groups| ==> starts[g + 1] == starts[g] + |groups[g]|
    ensures forall g :: 0 <= g <= |groups| ==> starts[g] == Offset(groups, g)
    ensures packed == Concat(groups)
  {
    starts := [0];
    var i := 0;
    while i < |groups|
      invariant 0 <= i <= |groups| && |starts| == i + 1
      invariant forall g :: 0 <= g <= i ==> starts[g] == Offset(groups, g)
    {
      OffsetStep(groups, i);
      starts := starts + [starts[|starts| - 1] + |groups[i]|];
      i := i + 1;
    }
    forall g | 0 <= g < |groups|
      ensures starts[g + 1] == starts[g] + |groups[g]|
    {
      OffsetStep(groups, g);
    }
    packed := Concat(groups);
  }

  lemma {:induction false} OffsetMonotone(groups: seq<Rows>, g: nat, h: nat)
    requires g <= h <= |groups|
    ensures Offset(groups, g) <= Offset(groups, h)
    decreases h
  {
    if g < h {
      OffsetMonotone(groups, g, h - 1);
      OffsetStep(groups, h - 1);
    }
  }

  /** Row i of group g sits at starts[g] + i of the packed matrix. */
  lemma {:induction false} ConcatRow(groups: seq<Rows>, g: nat, i: nat)
    requires g < |groups| && i < |groups[g]|
    ensures Offset(groups, g) + i < |Concat(groups)|
    ensures Concat(groups)[Offset(groups, g) + i] == groups[g][i]
  {
    var front := groups[..|groups| - 1];
    if g < |groups| - 1 {
      ConcatRow(front, g, i);
      assert front[..g] == groups[..g];
    } else {
      assert groups[..g] == front;
    }
  }

  /** The group that owns a packed row. */
  function GroupOf(groups: seq<Rows>, row: int): (g: nat)
    requires 0 <= row < |Concat(groups)|
    ensures g < |groups| && Offset(groups, g) <= row < Offset(groups, g) + |groups[g]|
  {
    var front := groups[..|groups| - 1];
    if row >= |Concat(front)| then |groups| - 1
    else
      var g := GroupOf(front, row);
      assert front[..g] == groups[..g];
      g
  }

  lemma GroupOfUnique(groups: seq<Rows>, row: int, g: nat)
    requires 0 <= row < |Concat(groups)|
    requires g < |groups| && Offset(groups, g) <= row < Offset(groups, g) + |groups[g]|
    ensures g == GroupOf(groups, row)
  {
    var h := GroupOf(groups, row);
    OffsetStep(groups, g);
    OffsetStep(groups, h);
    if g < h {
      OffsetMonotone(groups, g + 1, h);
    } else if h < g {
      OffsetMonotone(groups, h + 1, g);
    }
  }

  // The kernel's decomposition into stores.

  datatype Config = Config(groups: seq<Rows>, k: nat, n: nat, b: (int, int) -> real,
                           workers: nat, blockM: nat, blockN: nat, blockK: nat)

  ghost predicate Valid(c: Config) {
    && c.workers > 0 && c.blockM > 0 && c.blockN > 0 && c.blockK > 0
    && forall g, i :: 0 <= g < |c.groups| && 0 <= i < |c.groups[g]| ==> |c.groups[g][i]| == c.k
  }

  function Start(c: Config, g: nat): nat
    requires g <= |c.groups|
  {
    Offset(c.groups, g)
  }

  function MTiles(c: Config, g: nat): int
    requires g < |c.groups| && c.blockM > 0
  {
    Cdiv(Start(c, g + 1) - Start(c, g), c.blockM)
  }

  function NTiles(c: Config): int
    requires c.blockN > 0
  {
    Cdiv(c.n, c.blockN)
  }

  function GroupTiles(c: Config, g: nat): int
    requires g < |c.groups| && c.blockM > 0 && c.blockN > 0
  {
    MTiles(c, g) * NTiles(c)
  }

  /** The iterations whose tile index is in range: the guards of the two inner `if`s. */
  predicate Works(c: Config, w: nat, g: nat, local: nat)
    requires g < |c.groups| && c.blockM > 0 && c.blockN > 0
  {
    Start(c, g + 1) > Start(c, g) && local < GroupTiles(c, g) && local * c.workers + w < GroupTiles(c, g)
  }

  /** Top row and left column of the tile of an iteration. */
  function BaseRow(c: Config, w: nat, g: nat, local: nat): int
    requires g < |c.groups| && c.blockM > 0 && MTiles(c, g) > 0
  {
    Start(c, g) + (local * c.workers + w) % MTiles(c, g) * c.blockM
  }

  function BaseCol(c: Config, w: nat, g: nat, local: nat): int
    requires g < |c.groups| && c.blockM > 0 && MTiles(c, g) > 0
  {
    (local * c.workers + w) / MTiles(c, g) * c.blockN
  }

  lemma SomeMTile(c: Config, g: nat)
    requires g < |c.groups| && c.blockM > 0 && Start(c, g + 1) > Start(c, g)
    ensures MTiles(c, g) > 0
  {
    CdivCovers(Start(c, g + 1) - Start(c, g), c.blockM);
    if MTiles(c, g) <= 0 {
      MulMonotone(MTiles(c, g), 0, c.blockM);
    }
  }

  /** Iteration (g, local) of worker w stores to (row, col), through lane (r, q) of its tile. */
  ghost predicate Stores(c: Config, w: nat, g: nat, local: nat, r: int, q: int, row: int, col: int)
    requires Valid(c) && g < |c.groups|
  {
    && Works(c, w, g, local)
    && (SomeMTile(c, g);
        && 0 <= r < c.blockM && 0 <= q < c.blockN
        && row == BaseRow(c, w, g, local) + r && col == BaseCol(c, w, g, local) + q
        && row < Start(c, g + 1) && col < c.n)
  }

  /** The linear tile index, within its group, of a cell. */
  function TileIndex(c: Config, row: int, col: int): int
    requires c.blockM > 0 && c.blockN > 0 && 0 <= row < |Concat(c.groups)| && 0 <= col < c.n
  {
    var g := GroupOf(c.groups, row);
    col / c.blockN * MTiles(c, g) + (row - Start(c, g)) / c.blockM
  }

  lemma RowsOfGroup(c: Config, row: int)
    requires Valid(c) && 0 <= row < |Concat(c.groups)|
    ensures var g := GroupOf(c.groups, row);
            && Start(c, g) <= row < Start(c, g + 1) && MTiles(c, g) > 0
            && 0 <= (row - Start(c, g)) / c.blockM < MTiles(c, g)
    ensures forall col :: 0 <= col < c.n ==> 0 <= col / c.blockN < NTiles(c)
  {
    var g := GroupOf(c.groups, row);
    OffsetStep(c.groups, g);
    SomeMTile(c, g);
    DivBounds(row - Start(c, g), Start(c, g + 1) - Start(c, g), c.blockM);
    forall col | 0 <= col < c.n
      ensures 0 <= col / c.blockN < NTiles(c)
    {
      DivBounds(col, c.n, c.blockN);
    }
  }

  lemma TileIndexBounds(c: Config, row: int, col: int)
    requires Valid(c) && 0 <= row < |Concat(c.groups)| && 0 <= col < c.n
    ensures var g := GroupOf(c.groups, row);
            && Start(c, g + 1) > Start(c, g) && MTiles(c, g) > 0
            && 0 <= TileIndex(c, row, col) < GroupTiles(c, g)
            && TileIndex(c, row, col) % MTiles(c, g) == (row - Start(c, g)) / c.blockM
            && TileIndex(c, row, col) / MTiles(c, g) == col / c.blockN
  {
    hide Concat, Offset, MTiles, NTiles;
    var g := GroupOf(c.groups, row);
    RowsOfGroup(c, row);
    var mi, ni := (row - Start(c, g)) / c.blockM, col / c.blockN;
    GridNumber(ni, mi, NTiles(c), MTiles(c, g));
  }

  /** Decoding a tile index by % and // inverts the row-within-column numbering of tiles. */
  lemma TileDecodes(t: int, mt: int, bm: int, bn: int, x: int, col: int, r: int, q: int)
    requires mt > 0 && bm > 0 && bn > 0
    requires 0 <= t && 0 <= x && 0 <= col && x / bm < mt
    ensures 0 <= r < bm && 0 <= q < bn && x == t % mt * bm + r && col == t / mt * bn + q
            <==> t == col / bn * mt + x / bm && r == x % bm && q == col % bn
  {
    DivBounds(x, x, bm);
    if 0 <= r < bm && 0 <= q < bn && x == t % mt * bm + r && col == t / mt * bn + q {
      DivModUnique(x, t % mt, r, bm);
      DivModUnique(col, t / mt, q, bn);
      assert t == t / mt * mt + t % mt;
    }
    if t == col / bn * mt + x / bm {
      DivModUnique(t, col / bn, x / bm, mt);
      assert x == x / bm * bm + x % bm;
      assert col == col / bn * bn + col % bn;
    }
  }

  lemma LocalBound(t: int, local: nat, workers: nat, w: nat)
    requires workers > 0 && t == local * workers + w
    ensures local <= t
  {
    MulMonotone(1, workers, local);
    assert local <= local * workers;
  }

  /** A cell of a group's own rows is stored only by the iteration that holds its tile index. */
  lemma StoresIff(c: Config, w: nat, g: nat, local: nat, r: int, q: int, row: int, col: int)
    requires Valid(c) && w < c.workers && g < |c.groups|
    requires 0 <= row < |Concat(c.groups)| && 0 <= col < c.n && g == GroupOf(c.groups, row)
    ensures Stores(c, w, g, local, r, q, row, col)
            <==> local * c.workers + w == TileIndex(c, row, col)
                 && r == (row - Start(c, g)) % c.blockM && q == col % c.blockN
  {
    hide MTiles, NTiles, GroupTiles, Concat, Start;
    TileIndexBounds(c, row, col);
    var t := local * c.workers + w;
    OffsetStep(c.groups, g);
    RowsOfGroup(c, row);
    TileDecodes(t, MTiles(c, g), c.blockM, c.blockN, row - Start(c, g), col, r, q);
    LocalBound(t, local, c.workers, w);
  }

  /** Stores stay inside their group and inside the matrix. */
  lemma StoresStayInside(c: Config, w: nat, g: nat, local: nat, r: int, q: int, row: int, col: int)
    requires Valid(c) && g < |c.groups| && Stores(c, w, g, local, r, q, row, col)
    ensures Start(c, g) <= row < Start(c, g + 1) <= |Concat(c.groups)| && 0 <= col < c.n
    ensures g == GroupOf(c.groups, row)
  {
    SomeMTile(c, g);
    var t, mt := local * c.workers + w, MTiles(c, g);
    MulMonotone(0, local, c.workers);
    DivBounds(t, t, mt);
    MulMonotone(0, t % mt, c.blockM);
    MulMonotone(0, t / mt, c.blockN);
    OffsetMonotone(c.groups, g + 1, |c.groups|);
    assert c.groups[..|c.groups|] == c.groups;
    OffsetStep(c.groups, g);
    GroupOfUnique(c.groups, row, g);
  }

  /** Which worker, and in which of its iterations. */
  function OwnerWorker(c: Config, row: int, col: int): int
    requires Valid(c) && 0 <= row < |Concat(c.groups)| && 0 <= col < c.n
  {
    TileIndex(c, row, col) % c.workers
  }

  function OwnerLocal(c: Config, row: int, col: int): int
    requires Valid(c) && 0 <= row < |Concat(c.groups)| && 0 <= col < c.n
  {
    TileIndex(c, row, col) / c.workers
  }

  /** Each (row, col) is stored by exactly one worker, group, local tile and lane. */
  lemma StoredExactlyOnce(c: Config, w: nat, g: nat, local: nat, r: int, q: int, row: int, col: int)
    requires Valid(c) && w < c.workers && g < |c.groups|
    requires 0 <= row < |Concat(c.groups)| && 0 <= col < c.n
    ensures Stores(c, w, g, local, r, q, row, col)
            <==> && g == GroupOf(c.groups, row) && w == OwnerWorker(c, row, col) && local == OwnerLocal(c, row, col)
                 && r == (row - Start(c, g)) % c.blockM && q == col % c.blockN
  {
    hide Stores, TileIndex, Start, GroupTiles, MTiles, Works, Concat;
    TileIndexBounds(c, row, col);
    var t := TileIndex(c, row, col);
    if Stores(c, w, g, local, r, q, row, col) {
      StoresStayInside(c, w, g, local, r, q, row, col);
    }
    if g == GroupOf(c.groups, row) {
      StoresIff(c, w, g, local, r, q, row, col);
      if local * c.workers + w == t {
        DivModUnique(t, local, w, c.workers);
      }
      assert t == t / c.workers * c.workers + t % c.workers;
    }
  }

  // The machine: workers step in any order; stores land in a shared matrix.

  datatype Pc =
    | Group(g: nat)                                                            // about to look at group g
    | Local(g: nat, local: nat)                                                // about to look at local tile `local`
    | Acc(g: nat, local: nat, x: int, acc: (int, int) -> real)                 // inside the k loop

  /** `stores` counts the stores each cell has received. */
  datatype State = State(out: (int, int) -> real, stores: (int, int) -> nat, workers: seq<Pc>)

  function A(c: Config, row: int, x: int): real {
    var packed := Concat(c.groups);
    if 0 <= row < |packed| && 0 <= x < |packed[row]| then packed[row][x] else 0.0
  }

  predicate HasTiles(c: Config, g: nat) {
    g < |c.groups| && c.blockM > 0 && c.blockN > 0 && MTiles(c, g) > 0
  }

  /** a_blk * b_blk at lane (r, q), with both boundary masks. */
  function LaneTerms(c: Config, w: nat, g: nat, local: nat, r: int, q: int): int -> real {
    x => if HasTiles(c, g) && BaseRow(c, w, g, local) + r < Start(c, g + 1) && BaseCol(c, w, g, local) + q < c.n
         then A(c, BaseRow(c, w, g, local) + r, x) * c.b(x, BaseCol(c, w, g, local) + q) else 0.0
  }

  ghost predicate Init(c: Config, s: State) {
    && |s.workers| == c.workers
    && (forall w :: 0 <= w < |s.workers| ==> s.workers[w] == Group(0))
    && (forall row, col :: s.out(row, col) == 0.0 && s.stores(row, col) == 0)
  }

  /** The group loop: enter the local loop of a non-empty group, or go on. */
  ghost predicate EnterGroup(c: Config, w: nat, s: State, s': State)
    requires w < |s.workers|
  {
    && s.workers[w].Group? && s.workers[w].g < |c.groups|
    && var g := s.workers[w].g;
       s' == s.(workers := s.workers[w := if Start(c, g + 1) > Start(c, g) then Local(g, 0) else Group(g + 1)])
  }

  /** The local loop: leave it, skip an iteration without a tile, or start its accumulator. */
  ghost predicate EnterLocal(c: Config, w: nat, s: State, s': State)
    requires w < |s.workers| == |s'.workers| && c.blockM > 0 && c.blockN > 0
  {
    && s.workers[w].Local? && s.workers[w].g < |c.groups|
    && s' == s.(workers := s.workers[w := s'.workers[w]])
    && var g, local := s.workers[w].g, s.workers[w].local;
       if local >= GroupTiles(c, g) then s'.workers[w] == Group(g + 1)
       else if local * c.workers + w >= GroupTiles(c, g) then s'.workers[w] == Local(g, local + 1)
       else
         && s'.workers[w].Acc? && s'.workers[w].g == g && s'.workers[w].local == local && s'.workers[w].x == 0
         && forall r, q :: s'.workers[w].acc(r, q) == 0.0
  }

  ghost predicate Accumulate(c: Config, w: nat, s: State, s': State)
    requires w < |s.workers| == |s'.workers| && c.blockK > 0
  {
    && s.workers[w].Acc? && s.workers[w].x < c.k
    && s' == s.(workers := s.workers[w := s'.workers[w]])
    && var pc, pc' := s.workers[w], s'.workers[w];
       var hi := if pc.x + c.blockK < c.k then pc.x + c.blockK else c.k;
       && pc'.Acc? && pc'.g == pc.g && pc'.local == pc.local && pc'.x == hi
       && forall r, q :: pc'.acc(r, q) == pc.acc(r, q) + Sum(LaneTerms(c, w, pc.g, pc.local, r, q), pc.x, hi)
  }

  /** hl.store with the boundary mask: every unmasked lane writes its cell. */
  ghost predicate StoreTile(c: Config, w: nat, s: State, s': State)
    requires Valid(c) && w < |s.workers|
  {
    && s.workers[w].Acc? && s.workers[w].x >= c.k && s.workers[w].g < |c.groups|
    && var pc := s.workers[w];
       && s' == State(s'.out, s'.stores, s.workers[w := Local(pc.g, pc.local + 1)])
       && (forall r, q, row, col :: Stores(c, w, pc.g, pc.local, r, q, row, col) ==>
             s'.out(row, col) == pc.acc(r, q) && s'.stores(row, col) == s.stores(row, col) + 1)
       && (forall row, col :: (forall r, q :: !Stores(c, w, pc.g, pc.local, r, q, row, col)) ==>
             s'.out(row, col) == s.out(row, col) && s'.stores(row, col) == s.stores(row, col))
  }

  ghost predicate Step(c: Config, w: nat, s: State, s': State)
    requires Valid(c)
  {
    && w < |s.workers| == |s'.workers|
    && (EnterGroup(c, w, s, s') || EnterLocal(c, w, s, s') || Accumulate(c, w, s, s') || StoreTile(c, w, s, s'))
  }

  ghost predicate IsRun(c: Config, run: seq<State>, schedule: seq<nat>)
    requires Valid(c)
  {
    && |run| == |schedule| + 1
    && Init(c, run[0])
    && forall i :: 0 <= i < |schedule| ==> Step(c, schedule[i], run[i], run[i + 1])
  }

  ghost predicate Complete(c: Config, s: State) {
    && |s.workers| == c.workers
    && forall w :: 0 <= w < |s.workers| ==> s.workers[w] == Group(|c.groups|)
  }

  /** The worker has left iteration (g, local) behind. */
  predicate Passed(pc: Pc, g: nat, local: int) {
    match pc
    case Group(h) => h > g
    case Local(h, l) => h > g || (h == g && l > local)
    case Acc(h, l, _, _) => h > g || (h == g && l > local)
  }

  function RowTimesB(c: Config, row: int, col: int): int -> real {
    x => A(c, row, x) * c.b(x, col)
  }

  lemma OwnerInRange(c: Config, row: int, col: int)
    requires Valid(c) && 0 <= row < |Concat(c.groups)| && 0 <= col < c.n
    ensures 0 <= OwnerWorker(c, row, col) < c.workers
    ensures 0 <= OwnerLocal(c, row, col)
    ensures var g := GroupOf(c.groups, row);
            && Start(c, g + 1) > Start(c, g)
            && OwnerLocal(c, row, col) * c.workers + OwnerWorker(c, row, col) == TileIndex(c, row, col)
            && OwnerLocal(c, row, col) <= TileIndex(c, row, col) < GroupTiles(c, g)
  {
    hide TileIndex, Start, GroupTiles, MTiles, Concat;
    TileIndexBounds(c, row, col);
    DivBounds(TileIndex(c, row, col), TileIndex(c, row, col), c.workers);
    var l := OwnerLocal(c, row, col);
    MulMonotone(1, c.workers, l);
    assert l <= l * c.workers;
  }

  ghost predicate OwnerHasPassed(c: Config, s: State, row: int, col: int)
    requires Valid(c) && |s.workers| == c.workers
    requires 0 <= row < |Concat(c.groups)| && 0 <= col < c.n
  {
    OwnerInRange(c, row, col);
    Passed(s.workers[OwnerWorker(c, row, col)], GroupOf(c.groups, row), OwnerLocal(c, row, col))
  }

  ghost predicate CellOk(c: Config, s: State, row: int, col: int)
    requires Valid(c) && |s.workers| == c.workers
  {
    if 0 <= row < |Concat(c.groups)| && 0 <= col < c.n then
      var done := OwnerHasPassed(c, s, row, col);
      && s.stores(row, col) == (if done then 1 else 0)
      && s.out(row, col) == if done then Sum(RowTimesB(c, row, col), 0, c.k) else 0.0
    else s.stores(row, col) == 0
  }

  ghost predicate PcOk(c: Config, w: nat, pc: Pc)
    requires Valid(c)
  {
    match pc
    case Group(g) => g <= |c.groups|
    case Local(g, local) => g < |c.groups| && Start(c, g + 1) > Start(c, g)
    case Acc(g, local, x, acc) =>
      && g < |c.groups| && Works(c, w, g, local) && 0 <= x <= c.k
      && forall r, q :: acc(r, q) == Sum(LaneTerms(c, w, g, local, r, q), 0, x)
  }

  ghost predicate Inv(c: Config, s: State)
    requires Valid(c)
  {
    && |s.workers| == c.workers
    && (forall w :: 0 <= w < |s.workers| ==> PcOk(c, w, s.workers[w]))
    && (forall row, col :: CellOk(c, s, row, col))
  }

  /** Steps of worker w that do not store: nothing may be passed over that owns a cell. */
  lemma QuietStep(c: Config, w: nat, s: State, s': State, row: int, col: int)
    requires Valid(c) && Inv(c, s) && w < |s.workers|
    requires |s'.workers| == |s.workers| && s' == s.(workers := s.workers[w := s'.workers[w]])
    requires EnterGroup(c, w, s, s') || EnterLocal(c, w, s, s') || Accumulate(c, w, s, s')
    ensures CellOk(c, s', row, col)
  {
    assert CellOk(c, s, row, col);
    if 0 <= row < |Concat(c.groups)| && 0 <= col < c.n {
      OwnerInRange(c, row, col);
      var g, owner, local := GroupOf(c.groups, row), OwnerWorker(c, row, col), OwnerLocal(c, row, col);
      if owner == w {
        hide Concat, GroupOf, OwnerWorker, OwnerLocal, TileIndex, GroupTiles, Start, MTiles;
        var pc := s.workers[w];
        if pc.Local? && pc.g == g && pc.local == local {
          assert local * c.workers + w < GroupTiles(c, g);
        }
        assert Passed(s'.workers[w], g, local) == Passed(s.workers[w], g, local);
      }
    }
  }

  /** An unmasked lane accumulates the dot product of its row and column. */
  lemma LaneIsDot(c: Config, w: nat, g: nat, local: nat, r: int, q: int, row: int, col: int)
    requires Valid(c) && g < |c.groups| && Stores(c, w, g, local, r, q, row, col)
    ensures Sum(LaneTerms(c, w, g, local, r, q), 0, c.k) == Sum(RowTimesB(c, row, col), 0, c.k)
  {
    SomeMTile(c, g);
    SumEq(LaneTerms(c, w, g, local, r, q), RowTimesB(c, row, col), 0, c.k);
  }

  lemma StoreStep(c: Config, w: nat, s: State, s': State, row: int, col: int)
    requires Valid(c) && Inv(c, s) && w < |s.workers| && StoreTile(c, w, s, s')
    ensures CellOk(c, s', row, col)
  {
    hide Stores, Concat, GroupOf, TileIndex, OwnerWorker, OwnerLocal, Start, GroupTiles, MTiles, LaneTerms, RowTimesB, Works, Sum;
    assert CellOk(c, s, row, col);
    var pc := s.workers[w];
    assert PcOk(c, w, pc);
    if 0 <= row < |Concat(c.groups)| && 0 <= col < c.n {
      OwnerInRange(c, row, col);
      var g, owner, local := GroupOf(c.groups, row), OwnerWorker(c, row, col), OwnerLocal(c, row, col);
      if owner == w && g == pc.g && local == pc.local {
        var r, q := (row - Start(c, g)) % c.blockM, col % c.blockN;
        StoredExactlyOnce(c, w, pc.g, pc.local, r, q, row, col);
        LaneIsDot(c, w, pc.g, pc.local, r, q, row, col);
      } else {
        forall r, q
          ensures !Stores(c, w, pc.g, pc.local, r, q, row, col)
        {
          StoredExactlyOnce(c, w, pc.g, pc.local, r, q, row, col);
        }
        assert Passed(s'.workers[owner], g, local) == Passed(s.workers[owner], g, local);
      }
    } else {
      forall r, q
        ensures !Stores(c, w, pc.g, pc.local, r, q, row, col)
      {
        if Stores(c, w, pc.g, pc.local, r, q, row, col) {
          StoresStayInside(c, w, pc.g, pc.local, r, q, row, col);
        }
      }
    }
  }

  lemma StepPcOk(c: Config, w: nat, s: State, s': State)
    requires Valid(c) && Step(c, w, s, s') && PcOk(c, w, s.workers[w])
    ensures PcOk(c, w, s'.workers[w])
  {
    if Accumulate(c, w, s, s') {
      var pc, pc' := s.workers[w], s'.workers[w];
      forall r, q
        ensures pc'.acc(r, q) == Sum(LaneTerms(c, w, pc.g, pc.local, r, q), 0, pc'.x)
      {
        SumSplit(LaneTerms(c, w, pc.g, pc.local, r, q), 0, pc.x, pc'.x);
      }
    }
  }

  lemma StepInv(c: Config, w: nat, s: State, s': State)
    requires Valid(c) && Inv(c, s) && Step(c, w, s, s')
    ensures Inv(c, s')
  {
    assert PcOk(c, w, s.workers[w]);
    StepPcOk(c, w, s, s');
    forall v | 0 <= v < |s'.workers|
      ensures PcOk(c, v, s'.workers[v])
    {
      assert PcOk(c, v, s.workers[v]);
      assert v != w ==> s'.workers[v] == s.workers[v];
    }
    forall row, col
      ensures CellOk(c, s', row, col)
    {
      if StoreTile(c, w, s, s') {
        StoreStep(c, w, s, s', row, col);
      } else {
        QuietStep(c, w, s, s', row, col);
      }
    }
  }

  lemma {:induction false} RunInv(c: Config, run: seq<State>, schedule: seq<nat>, i: nat)
    requires Valid(c) && IsRun(c, run, schedule) && i < |run|
    ensures Inv(c, run[i])
  {
    if i == 0 {
      forall row, col
        ensures CellOk(c, run[0], row, col)
      {
        if 0 <= row < |Concat(c.groups)| && 0 <= col < c.n {
          OwnerInRange(c, row, col);
        }
      }
    } else {
      RunInv(c, run, schedule, i - 1);
      StepInv(c, schedule[i - 1], run[i - 1], run[i]);
    }
  }

  /** At every moment of every run no cell has been stored twice, and no cell outside the matrix at all. */
  lemma NeverStoredTwice(c: Config, run: seq<State>, schedule: seq<nat>, i: nat, row: int, col: int)
    requires Valid(c) && IsRun(c, run, schedule) && i < |run|
    ensures run[i].stores(row, col) <= 1
    ensures run[i].stores(row, col) == 1 ==> 0 <= row < |Concat(c.groups)| && 0 <= col < c.n
  {
    RunInv(c, run, schedule, i);
    assert CellOk(c, run[i], row, col);
  }

  function DotTerms(c: Config, cells: seq<real>, col: int): int -> real {
    x => (if 0 <= x < |cells| then cells[x] else 0.0) * c.b(x, col)
  }

  /** _reference_grouped_gemm: multiply each group on its own, then concatenate. */
  function Product(c: Config, rows: Rows): Rows {
    seq(|rows|, i requires 0 <= i < |rows| =>
      seq(c.n, col => Sum(DotTerms(c, rows[i], col), 0, c.k)))
  }

  function Products(c: Config, groups: seq<Rows>): seq<Rows> {
    seq(|groups|, g requires 0 <= g < |groups| => Product(c, groups[g]))
  }

  function Reference(c: Config): Rows {
    Concat(Products(c, c.groups))
  }

  lemma {:induction false} SameLength(c: Config, groups: seq<Rows>)
    ensures |Concat(Products(c, groups))| == |Concat(groups)|
  {
    if groups != [] {
      var front := groups[..|groups| - 1];
      SameLength(c, front);
      assert Products(c, groups)[..|groups| - 1] == Products(c, front);
    }
  }

  lemma {:induction false} ReferenceRow(c: Config, groups: seq<Rows>, row: int)
    requires 0 <= row < |Concat(groups)|
    ensures |Concat(Products(c, groups))| == |Concat(groups)|
    ensures Concat(Products(c, groups))[row] == Product(c, [Concat(groups)[row]])[0]
    decreases |groups|
  {
    var front, last := groups[..|groups| - 1], groups[|groups| - 1];
    assert Products(c, groups)[..|groups| - 1] == Products(c, front);
    SameLength(c, front);
    if row < |Concat(front)| {
      ReferenceRow(c, front, row);
    } else {
      var i := row - |Concat(front)|;
      assert Concat(groups)[row] == last[i];
      assert Product(c, last)[i] == Product(c, [last[i]])[0];
    }
  }

  lemma ReferenceCell(c: Config, row: int, col: int)
    requires 0 <= row < |Concat(c.groups)| && 0 <= col < c.n
    ensures |Reference(c)| == |Concat(c.groups)| && |Reference(c)[row]| == c.n
    ensures Reference(c)[row][col] == Sum(RowTimesB(c, row, col), 0, c.k)
  {
    ReferenceRow(c, c.groups, row);
    var cells := Concat(c.groups)[row];
    forall x | 0 <= x < c.k
      ensures RowTimesB(c, row, col)(x) == DotTerms(c, cells, col)(x)
    {
      assert A(c, row, x) == if 0 <= x < |cells| then cells[x] else 0.0;
    }
    SumEq(RowTimesB(c, row, col), DotTerms(c, cells, col), 0, c.k);
  }

  /** Every complete run stores every cell once and leaves the concatenated group products. */
  lemma CompleteRunIsReference(c: Config, run: seq<State>, schedule: seq<nat>, row: int, col: int)
    requires Valid(c) && IsRun(c, run, schedule) && Complete(c, run[|run| - 1])
    requires 0 <= row < |Concat(c.groups)| && 0 <= col < c.n
    ensures run[|run| - 1].stores(row, col) == 1
    ensures |Reference(c)| == |Concat(c.groups)| && |Reference(c)[row]| == c.n
    ensures run[|run| - 1].out(row, col) == Reference(c)[row][col]
  {
    var s := run[|run| - 1];
    RunInv(c, run, schedule, |run| - 1);
    assert CellOk(c, s, row, col);
    OwnerInRange(c, row, col);
    ReferenceCell(c, row, col);
  }

  lemma StoresThroughLane(c: Config, w: nat, g: nat, local: nat, r: int, q: int, row: int, col: int)
    requires Valid(c) && g < |c.groups| && Works(c, w, g, local) && MTiles(c, g) > 0
    ensures var top, left := BaseRow(c, w, g, local), BaseCol(c, w, g, local);
            Stores(c, w, g, local, r, q, row, col)
            <==> && top <= row < top + c.blockM && row < Start(c, g + 1) && left <= col < left + c.blockN && col < c.n
                 && r == row - top && q == col - left
  {
    hide BaseRow, BaseCol, MTiles, GroupTiles, Works;
  }

  lemma StoreNext(c: Config, w: nat, s: State) returns (next: State)
    requires Valid(c) && w < |s.workers| && PcOk(c, w, s.workers[w])
    requires s.workers[w].Acc? && s.workers[w].x >= c.k
    ensures StoreTile(c, w, s, next)
  {
    hide BaseRow, BaseCol, MTiles, GroupTiles, Stores, LaneTerms, Sum, Concat;
    var pc := s.workers[w];
    var g, local := pc.g, pc.local;
    SomeMTile(c, g);
    var top, left, bottom := BaseRow(c, w, g, local), BaseCol(c, w, g, local), Start(c, g + 1);
    var held := (row: int, col: int) =>
      top <= row < top + c.blockM && row < bottom && left <= col < left + c.blockN && col < c.n;
    forall r, q, row, col
      ensures Stores(c, w, g, local, r, q, row, col) <==> held(row, col) && r == row - top && q == col - left
    {
      StoresThroughLane(c, w, g, local, r, q, row, col);
    }
    next := State((row, col) => if held(row, col) then pc.acc(row - top, col - left) else s.out(row, col),
                  (row, col) => if held(row, col) then s.stores(row, col) + 1 else s.stores(row, col),
                  s.workers[w := Local(g, local + 1)]);
    forall row, col | forall r, q :: !Stores(c, w, g, local, r, q, row, col)
      ensures !held(row, col)
    {
      assert !Stores(c, w, g, local, row - top, col - left, row, col);
    }
  }

  /** Workers never wait for each other: a run that is not complete can take a step. */
  lemma NoDeadlock(c: Config, run: seq<State>, schedule: seq<nat>) returns (w: nat, next: State)
    requires Valid(c) && IsRun(c, run, schedule)
    requires !Complete(c, run[|run| - 1])
    ensures Step(c, w, run[|run| - 1], next)
  {
    var s := run[|run| - 1];
    RunInv(c, run, schedule, |run| - 1);
    w :| w < |s.workers| && s.workers[w] != Group(|c.groups|);
    assert PcOk(c, w, s.workers[w]);
    match s.workers[w]
    case Group(g) =>
      next := s.(workers := s.workers[w := if Start(c, g + 1) > Start(c, g) then Local(g, 0) else Group(g + 1)]);
      assert EnterGroup(c, w, s, next);
    case Local(g, local) =>
      var pc := if local >= GroupTiles(c, g) then Group(g + 1)
                else if local * c.workers + w >= GroupTiles(c, g) then Local(g, local + 1)
                else Acc(g, local, 0, (r, q) => 0.0);
      next := s.(workers := s.workers[w := pc]);
      assert EnterLocal(c, w, s, next);
    case Acc(g, local, x, acc) =>
      if x < c.k {
        var hi := if x + c.blockK < c.k then x + c.blockK else c.k;
        next := s.(workers := s.workers[w := Acc(g, local, hi, (r, q) => acc(r, q) + Sum(LaneTerms(c, w, g, local, r, q), x, hi))]);
        assert Accumulate(c, w, s, next);
      } else {
        next := StoreNext(c, w, s);
      }
  }

  // Every run is finite, so by NoDeadlock it can be extended to a complete one (ExtendsToComplete).

  /** Steps per local iteration: taking it, at most k accumulations, and the store. */
  function Iterations(c: Config, left: int): nat {
    if left <= 0 then 0 else Iterations(c, left - 1) + c.k + 3
  }

  /** The steps a worker has left at most when it is about to look at group g. */
  function GroupRank(c: Config, g: nat): nat
    requires Valid(c)
    decreases |c.groups| - g
  {
    if g >= |c.groups| then 0 else GroupRank(c, g + 1) + Iterations(c, GroupTiles(c, g)) + 2
  }

  function Rank(c: Config, pc: Pc): int
    requires Valid(c)
  {
    match pc
    case Group(g) => GroupRank(c, g)
    case Local(g, local) =>
      GroupRank(c, g + 1) + 1 + if g < |c.groups| then Iterations(c, GroupTiles(c, g) - local) else 0
    case Acc(g, local, x, _) =>
      GroupRank(c, g + 1) + 1 + (c.k - x) + 2 + if g < |c.groups| then Iterations(c, GroupTiles(c, g) - local - 1) else 0
  }

  lemma StepLowersRank(c: Config, w: nat, s: State, s': State)
    requires Valid(c) && w < |s.workers| && PcOk(c, w, s.workers[w]) && Step(c, w, s, s')
    ensures Rank(c, s'.workers[w]) < Rank(c, s.workers[w])
    ensures s'.workers == s.workers[w := s'.workers[w]]
  {
    hide Start, GroupTiles, LaneTerms, Stores, Sum;
  }

  function TotalRank(c: Config, workers: seq<Pc>): int
    requires Valid(c)
  {
    if workers == [] then 0 else TotalRank(c, workers[..|workers| - 1]) + Rank(c, workers[|workers| - 1])
  }

  lemma {:induction false} TotalRankUpdate(c: Config, workers: seq<Pc>, w: nat, pc: Pc)
    requires Valid(c) && w < |workers|
    ensures TotalRank(c, workers[w := pc]) == TotalRank(c, workers) - Rank(c, workers[w]) + Rank(c, pc)
  {
    hide Rank;
    var last, updated := |workers| - 1, workers[w := pc];
    if w == last {
      assert updated[..last] == workers[..last];
    } else {
      TotalRankUpdate(c, workers[..last], w, pc);
      assert updated[..last] == workers[..last][w := pc];
    }
  }

  lemma {:induction false} TotalRankIsNatural(c: Config, workers: seq<Pc>)
    requires Valid(c) && forall w :: 0 <= w < |workers| ==> PcOk(c, w, workers[w])
    ensures TotalRank(c, workers) >= 0
  {
    hide GroupRank, Iterations, Start, GroupTiles, Works, LaneTerms;
    if workers != [] {
      var front, pc := workers[..|workers| - 1], workers[|workers| - 1];
      forall w | 0 <= w < |front|
        ensures PcOk(c, w, front[w])
      {
        assert front[w] == workers[w];
      }
      TotalRankIsNatural(c, front);
      assert PcOk(c, |workers| - 1, pc);
    }
  }

  lemma StepIsByAWorker(c: Config, w: nat, s: State, s': State)
    requires Valid(c) && Step(c, w, s, s')
    ensures w < |s.workers| == |s'.workers|
  {
  }

  /** No schedule is longer than the work there is. */
  lemma {:induction false} RunsAreBounded(c: Config, run: seq<State>, schedule: seq<nat>, i: nat)
    requires Valid(c) && IsRun(c, run, schedule) && i < |run|
    ensures i <= TotalRank(c, run[0].workers) - TotalRank(c, run[i].workers)
    ensures i <= TotalRank(c, run[0].workers)
  {
    hide Rank, CellOk, PcOk, Step;
    RunInv(c, run, schedule, i);
    TotalRankIsNatural(c, run[i].workers);
    if i > 0 {
      RunsAreBounded(c, run, schedule, i - 1);
      RunInv(c, run, schedule, i - 1);
      var w := schedule[i - 1];
      StepIsByAWorker(c, w, run[i - 1], run[i]);
      assert PcOk(c, w, run[i - 1].workers[w]);
      StepLowersRank(c, w, run[i - 1], run[i]);
      TotalRankUpdate(c, run[i - 1].workers, w, run[i].workers[w]);
    }
  }

  /** One more step of a run that is not complete: less is left to do. */
  lemma OneMoreStep(c: Config, run: seq<State>, schedule: seq<nat>) returns (w: nat, next: State, left: nat)
    requires Valid(c) && IsRun(c, run, schedule) && !Complete(c, run[|run| - 1])
    ensures IsRun(c, run + [next], schedule + [w])
    ensures left == TotalRank(c, next.workers) < TotalRank(c, run[|run| - 1].workers)
  {
    hide Rank, CellOk, PcOk, Step, Init, Complete, TotalRank;
    var s := run[|run| - 1];
    RunInv(c, run, schedule, |run| - 1);
    w, next := NoDeadlock(c, run, schedule);
    StepInv(c, w, s, next);
    StepIsByAWorker(c, w, s, next);
    assert PcOk(c, w, s.workers[w]);
    StepLowersRank(c, w, s, next);
    TotalRankUpdate(c, s.workers, w, next.workers[w]);
    TotalRankIsNatural(c, next.workers);
    left := TotalRank(c, next.workers);
  }

  lemma {:induction false} ExtendsWithin(c: Config, run: seq<State>, schedule: seq<nat>, left: nat)
    returns (longer: seq<State>, continued: seq<nat>)
    requires Valid(c) && IsRun(c, run, schedule) && left == TotalRank(c, run[|run| - 1].workers)
    ensures IsRun(c, longer, continued) && run <= longer && schedule <= continued
    ensures Complete(c, longer[|longer| - 1])
    decreases left
  {
    hide TotalRank, Complete, Init, Step;
    longer, continued := run, schedule;
    if !Complete(c, run[|run| - 1]) {
      var w, next, less := OneMoreStep(c, run, schedule);
      longer, continued := ExtendsWithin(c, run + [next], schedule + [w], less);
    }
  }

  /** From any state of any run some continuation reaches a complete one. */
  lemma ExtendsToComplete(c: Config, run: seq<State>, schedule: seq<nat>) returns (longer: seq<State>, continued: seq<nat>)
    requires Valid(c) && IsRun(c, run, schedule)
    ensures IsRun(c, longer, continued) && run <= longer && schedule <= continued
    ensures Complete(c, longer[|longer| - 1])
  {
    hide TotalRank;
    RunInv(c, run, schedule, |run| - 1);
    TotalRankIsNatural(c, run[|run| - 1].workers);
    longer, continued := ExtendsWithin(c, run, schedule, TotalRank(c, run[|run| - 1].workers));
  }

  // The basic kernel: one group after the other, each with its own tiles.

  /** The K-reduction loop at one cell. */
  method DotLoop(c: Config, row: int, col: int) returns (acc: real)
    requires c.blockK > 0
    ensures acc == Sum(RowTimesB(c, row, col), 0, c.k)
  {
    hide RowTimesB;
    acc := 0.0;
    var lo := 0;
    while lo < c.k
      invariant 0 <= lo <= c.k
      invariant acc == Sum(RowTimesB(c, row, col), 0, lo)
    {
      var hi := if lo + c.blockK < c.k then lo + c.blockK else c.k;
      SumSplit(RowTimesB(c, row, col), 0, lo, hi);
      acc := acc + Sum(RowTimesB(c, row, col), lo, hi);
      lo := hi;
    }
  }

  /** One output tile. */
  method StoreJaggedTile(c: Config, out: array2<real>, top: nat, bottom: nat, left: nat, right: nat)
    requires c.blockK > 0 && top <= bottom <= out.Length0 && left <= right <= out.Length1
    modifies out
    ensures forall row, col :: top <= row < bottom && left <= col < right ==> out[row, col] == Sum(RowTimesB(c, row, col), 0, c.k)
    ensures forall row, col :: 0 <= row < out.Length0 && 0 <= col < out.Length1 && !(top <= row < bottom && left <= col < right)
                               ==> out[row, col] == old(out[row, col])
  {
    hide *;
    for row := top to bottom
      invariant forall r, q :: top <= r < row && left <= q < right ==> out[r, q] == Sum(RowTimesB(c, r, q), 0, c.k)
      invariant forall r, q :: 0 <= r < out.Length0 && 0 <= q < out.Length1 && !(top <= r < row && left <= q < right)
                               ==> out[r, q] == old(out[r, q])
    {
      for col := left to right
        invariant forall r, q :: top <= r <= row && left <= q < right && (r < row || q < col)
                                 ==> out[r, q] == Sum(RowTimesB(c, r, q), 0, c.k)
        invariant forall r, q :: 0 <= r < out.Length0 && 0 <= q < out.Length1
                                 && !(top <= r <= row && left <= q < right && (r < row || q < col))
                                 ==> out[r, q] == old(out[r, q])
      {
        out[row, col] := DotLoop(c, row, col);
      }
    }
  }

  ghost predicate IsReferenceCell(c: Config, row: int, col: int, value: real) {
    0 <= row < |Reference(c)| && 0 <= col < |Reference(c)[row]| == c.n && value == Reference(c)[row][col]
  }

  lemma CellOfReference(c: Config, row: int, col: int)
    requires 0 <= row < |Concat(c.groups)| && 0 <= col < c.n
    ensures IsReferenceCell(c, row, col, Sum(RowTimesB(c, row, col), 0, c.k))
  {
    ReferenceCell(c, row, col);
  }

  lemma ReferenceRows(c: Config)
    ensures |Reference(c)| == |Concat(c.groups)|
  {
    SameLength(c, c.groups);
  }

  lemma AllRows(c: Config)
    ensures Start(c, |c.groups|) == |Concat(c.groups)|
    ensures Start(c, 0) == 0
  {
    assert c.groups[..|c.groups|] == c.groups;
  }

  /** grouped_gemm_jagged: empty groups are skipped, and the result is the same concatenation. */
  method JaggedKernel(c: Config) returns (out: array2<real>)
    requires Valid(c)
    ensures out.Length0 == |Concat(c.groups)| && out.Length1 == c.n
    ensures |Reference(c)| == out.Length0
    ensures forall row, col :: 0 <= row < out.Length0 && 0 <= col < out.Length1 ==> IsReferenceCell(c, row, col, out[row, col])
  {
    hide IsReferenceCell, Concat, Reference, RowTimesB, Sum, Offset;
    out := new real[|Concat(c.groups)|, c.n];
    AllRows(c);
    for g := 0 to |c.groups|
      invariant forall row, col :: 0 <= row < Start(c, g) && row < out.Length0 && 0 <= col < c.n
                                   ==> out[row, col] == Sum(RowTimesB(c, row, col), 0, c.k)
    {
      var start, end := Start(c, g), Start(c, g + 1);
      OffsetMonotone(c.groups, g, g + 1);
      OffsetMonotone(c.groups, g + 1, |c.groups|);
      var top := start;
      while top < end
        invariant start <= top <= end
        invariant forall row, col :: 0 <= row < top && 0 <= col < c.n
                                     ==> out[row, col] == Sum(RowTimesB(c, row, col), 0, c.k)
      {
        var bottom := if top + c.blockM < end then top + c.blockM else end;
        var left := 0;
        while left < c.n
          invariant 0 <= left <= c.n
          invariant forall row, col :: 0 <= row < bottom && 0 <= col < c.n && (row < top || col < left)
                                       ==> out[row, col] == Sum(RowTimesB(c, row, col), 0, c.k)
        {
          var right := if left + c.blockN < c.n then left + c.blockN else c.n;
          StoreJaggedTile(c, out, top, bottom, left, right);
          left := right;
        }
        top := bottom;
      }
    }
    ReferenceRows(c);
    forall row, col | 0 <= row < out.Length0 && 0 <= col < out.Length1
      ensures IsReferenceCell(c, row, col, out[row, col])
    {
      CellOfReference(c, row, col);
    }
  }
}
