// examples/split_k_barrier.py: split-K matmul in two phases around hl.barrier(), as a
// step machine of persistent workers. Any number of workers, any assignment of tiles to
// workers that reaches every tile, any interleaving of their steps.
module SplitKBarrier {
  import opened Sums
  import opened Tiling

  datatype Tile3 = Tile3(m: nat, n: nat, k: nat)
  datatype Tile2 = Tile2(m: nat, n: nat)

  datatype Config = Config(
    m: nat, n: nat, k: nat, splitK: nat,
    a: (int, int) -> real, b: (int, int) -> real,
    blockM: nat, blockN: nat, blockInner: nat,       // phase 1 tile sizes
    blockM2: nat, blockN2: nat,                       // phase 2 tile sizes
    first: seq<seq<Tile3>>, second: seq<seq<Tile2>>)    // the tiles of each worker, per phase

  /** block_k = next_power_of_2(cdiv(k, split_k)). */
  function BlockK(c: Config): int
    requires c.splitK > 0
  {
    NextPowerOf2(Cdiv(c.k, c.splitK))
  }

  ghost predicate Sized(c: Config) {
    && c.splitK > 0
    && c.blockM > 0 && c.blockN > 0 && c.blockInner > 0 && c.blockM2 > 0 && c.blockN2 > 0
    && BlockK(c) > 0
  }

  ghost predicate IsTile3(c: Config, t: Tile3)
    requires Sized(c)
  {
    t.m < NumTiles(0, c.m, c.blockM) && t.n < NumTiles(0, c.n, c.blockN) && t.k < NumTiles(0, c.k, BlockK(c))
  }

  ghost predicate IsTile2(c: Config, t: Tile2)
    requires Sized(c)
  {
    t.m < NumTiles(0, c.m, c.blockM2) && t.n < NumTiles(0, c.n, c.blockN2)
  }

  /** The grid: both phases run on the same workers, and every tile belongs to some worker. */
  ghost predicate Valid(c: Config) {
    && Sized(c)
    && |c.first| == |c.second|
    && (forall w, t :: 0 <= w < |c.first| && 0 <= t < |c.first[w]| ==> IsTile3(c, c.first[w][t]))
    && (forall w, t :: 0 <= w < |c.second| && 0 <= t < |c.second[w]| ==> IsTile2(c, c.second[w][t]))
    && (forall tile :: IsTile3(c, tile) ==> exists w :: 0 <= w < |c.first| && tile in c.first[w])
    && (forall tile :: IsTile2(c, tile) ==> exists w :: 0 <= w < |c.second| && tile in c.second[w])
  }

  /** The tile index always fits in tmp's last dimension, although block_k is rounded up. */
  lemma SliceFits(k: int, splitK: int)
    requires k >= 0 && splitK > 0
    ensures NextPowerOf2(Cdiv(k, splitK)) > 0
    ensures NumTiles(0, k, NextPowerOf2(Cdiv(k, splitK))) <= splitK
  {
    var block := NextPowerOf2(Cdiv(k, splitK));
    NextPowerOf2IsLeast(Cdiv(k, splitK), 0);
    if k > 0 {
      CdivCovers(k, splitK);
      assert k <= splitK * Cdiv(k, splitK) <= splitK * block by {
        MulMonotone(Cdiv(k, splitK), block, splitK);
      }
      CdivCovers(k, block);
      if Cdiv(k, block) > splitK {
        MulMonotone(splitK, Cdiv(k, block) - 1, block);
      }
    }
  }

  // The machine.

  datatype Pc =
    | Next(job: nat)                                            // about to take its job-th first-phase tile
    | Inner(job: nat, x: int, acc: (int, int) -> real)          // inside the inner k loop, next index x
    | Waiting                                                   // arrived at the barrier
    | Second(job: nat)                                          // about to take its job-th second-phase tile
    | Summed(job: nat, total: (int, int) -> real)               // has read tmp, about to store out

  datatype State = State(tmp: (int, int, int) -> real, out: map<(int, int), real>, arrived: nat, workers: seq<Pc>)

  function Product(c: Config, i: int, j: int): int -> real {
    x => c.a(i, x) * c.b(x, j)
  }

  ghost predicate InTile3(c: Config, t: Tile3, i: int, j: int)
    requires Sized(c)
  {
    InTile(0, c.m, c.blockM, t.m, i) && InTile(0, c.n, c.blockN, t.n, j)
  }

  ghost predicate InTile2(c: Config, t: Tile2, i: int, j: int)
    requires Sized(c)
  {
    InTile(0, c.m, c.blockM2, t.m, i) && InTile(0, c.n, c.blockN2, t.n, j)
  }

  function OuterBegin(c: Config, t: Tile3): int
    requires Sized(c)
  {
    TileBegin(0, BlockK(c), t.k)
  }

  function OuterEnd(c: Config, t: Tile3): int
    requires Sized(c)
  {
    TileEnd(0, c.k, BlockK(c), t.k)
  }

  ghost predicate Init(c: Config, s: State) {
    && |s.workers| == |c.first|
    && (forall w :: 0 <= w < |s.workers| ==> s.workers[w] == Next(0))
    && (forall i, j, t :: s.tmp(i, j, t) == 0.0)
    && s.out == map[]
    && s.arrived == 0
  }

  /** acc = zeros. */
  ghost predicate Enter(c: Config, w: nat, s: State, s': State)
    requires Valid(c) && w < |s.workers| == |c.first| && |s'.workers| == |s.workers|
  {
    && s.workers[w].Next? && s.workers[w].job < |c.first[w]|
    && s'.workers[w].Inner? && s'.workers[w].job == s.workers[w].job
    && s'.workers[w].x == OuterBegin(c, c.first[w][s.workers[w].job])
    && (forall i, j :: s'.workers[w].acc(i, j) == 0.0)
    && s' == s.(workers := s.workers[w := s'.workers[w]])
  }

  /** acc = addmm(acc, a[tile_m, tile_k_inner], b[tile_k_inner, tile_n]). */
  ghost predicate Accumulate(c: Config, w: nat, s: State, s': State)
    requires Valid(c) && w < |s.workers| == |c.first| && |s'.workers| == |s.workers|
  {
    && s.workers[w].Inner? && s.workers[w].job < |c.first[w]|
    && var x, end := s.workers[w].x, OuterEnd(c, c.first[w][s.workers[w].job]);
       var hi := if x + c.blockInner < end then x + c.blockInner else end;
       && x < end
       && s'.workers[w].Inner? && s'.workers[w].job == s.workers[w].job && s'.workers[w].x == hi
       && (forall i, j :: s'.workers[w].acc(i, j) == s.workers[w].acc(i, j) + Sum(Product(c, i, j), x, hi))
       && s' == s.(workers := s.workers[w := s'.workers[w]])
  }

  /** tmp[tile_m, tile_n, tile_k_outer.id] = acc. */
  ghost predicate StorePartial(c: Config, w: nat, s: State, s': State)
    requires Valid(c) && w < |s.workers| == |c.first| && |s'.workers| == |s.workers|
  {
    && s.workers[w].Inner? && s.workers[w].job < |c.first[w]|
    && var tile := c.first[w][s.workers[w].job];
       && s.workers[w].x >= OuterEnd(c, tile)
       && (forall i, j, t :: s'.tmp(i, j, t) ==
             if InTile3(c, tile, i, j) && t == tile.k then s.workers[w].acc(i, j) else s.tmp(i, j, t))
       && s' == s.(tmp := s'.tmp, workers := s.workers[w := Next(s.workers[w].job + 1)])
  }

  /** hl.barrier(), first half: the worker reports that its first phase is over. */
  ghost predicate Arrive(c: Config, w: nat, s: State, s': State)
    requires Valid(c) && w < |s.workers| == |c.first|
  {
    && s.workers[w] == Next(|c.first[w]|)
    && s' == s.(arrived := s.arrived + 1, workers := s.workers[w := Waiting])
  }

  /** hl.barrier(), second half: released once as many have arrived as there are workers. */
  ghost predicate Pass(c: Config, w: nat, s: State, s': State)
    requires Valid(c) && w < |s.workers| == |c.first|
  {
    && s.workers[w].Waiting? && s.arrived == |c.first|
    && s' == s.(workers := s.workers[w := Second(0)])
  }

  /** torch.sum(tmp[tile_m, tile_n, :], dim=-1). */
  ghost predicate ReadPartials(c: Config, w: nat, s: State, s': State)
    requires Valid(c) && w < |s.workers| == |c.first| && |s'.workers| == |s.workers|
  {
    && s.workers[w].Second? && s.workers[w].job < |c.second[w]|
    && s'.workers[w].Summed? && s'.workers[w].job == s.workers[w].job
    && (forall i, j :: s'.workers[w].total(i, j) == Sum(t => s.tmp(i, j, t), 0, c.splitK))
    && s' == s.(workers := s.workers[w := s'.workers[w]])
  }

  /** out[tile_m, tile_n] = ... */
  ghost predicate StoreOut(c: Config, w: nat, s: State, s': State)
    requires Valid(c) && w < |s.workers| == |c.first|
  {
    && s.workers[w].Summed? && s.workers[w].job < |c.second[w]|
    && var tile, total := c.second[w][s.workers[w].job], s.workers[w].total;
       && (forall i, j :: (i, j) in s'.out <==> (i, j) in s.out || InTile2(c, tile, i, j))
       && (forall i, j :: (i, j) in s'.out ==>
             s'.out[(i, j)] == if InTile2(c, tile, i, j) then total(i, j) else s.out[(i, j)])
       && s' == s.(out := s'.out, workers := s.workers[w := Second(s.workers[w].job + 1)])
  }

  ghost predicate Step(c: Config, w: nat, s: State, s': State)
    requires Valid(c)
  {
    && w < |s.workers| == |c.first| && |s'.workers| == |s.workers|
    && (|| Enter(c, w, s, s') || Accumulate(c, w, s, s') || StorePartial(c, w, s, s') || Arrive(c, w, s, s')
        || Pass(c, w, s, s') || ReadPartials(c, w, s, s') || StoreOut(c, w, s, s'))
  }

  /** A run and its schedule: worker schedule[i] takes the i-th step. */
  ghost predicate IsRun(c: Config, run: seq<State>, schedule: seq<nat>)
    requires Valid(c)
  {
    && |run| == |schedule| + 1
    && Init(c, run[0])
    && forall i :: 0 <= i < |schedule| ==> Step(c, schedule[i], run[i], run[i + 1])
  }

  ghost predicate Complete(c: Config, s: State) {
    && |s.workers| == |c.first| == |c.second|
    && forall w :: 0 <= w < |s.workers| ==> s.workers[w] == Second(|c.second[w]|)
  }

  // What every reachable state satisfies.

  function Partial(c: Config, i: int, j: int, t: int): real
    requires Sized(c)
  {
    if 0 <= t < NumTiles(0, c.k, BlockK(c))
    then Sum(Product(c, i, j), TileBegin(0, BlockK(c), t), TileEnd(0, c.k, BlockK(c), t))
    else 0.0
  }

  function MatMul(c: Config, i: int, j: int): real {
    Sum(Product(c, i, j), 0, c.k)
  }

  predicate PastBarrier(pc: Pc) {
    pc.Second? || pc.Summed?
  }

  predicate HasArrived(pc: Pc) {
    pc.Waiting? || PastBarrier(pc)
  }

  function CountArrived(workers: seq<Pc>): nat {
    if workers == [] then 0
    else CountArrived(workers[..|workers| - 1]) + if HasArrived(workers[|workers| - 1]) then 1 else 0
  }

  /** How many first-phase tiles of its list a worker has stored. */
  function Stored(c: Config, w: nat, pc: Pc): nat
    requires w < |c.first|
  {
    match pc
    case Next(job) => job
    case Inner(job, _, _) => job
    case _ => |c.first[w]|
  }

  function Reduced(pc: Pc): nat {
    match pc
    case Second(job) => job
    case Summed(job, _) => job
    case _ => 0
  }

  ghost predicate TileStored(c: Config, s: State, tile: Tile3)
    requires Sized(c)
  {
    forall i, j :: InTile3(c, tile, i, j) ==> s.tmp(i, j, tile.k) == Partial(c, i, j, tile.k)
  }

  ghost predicate WorkerOk(c: Config, w: nat, s: State)
    requires Valid(c) && w < |s.workers| == |c.first|
  {
    var pc := s.workers[w];
    && Stored(c, w, pc) <= |c.first[w]|
    && Reduced(pc) <= |c.second[w]|
    && (pc.Inner? ==>
          && pc.job < |c.first[w]|
          && OuterBegin(c, c.first[w][pc.job]) <= pc.x <= OuterEnd(c, c.first[w][pc.job])
          && forall i, j :: pc.acc(i, j) == Sum(Product(c, i, j), OuterBegin(c, c.first[w][pc.job]), pc.x))
    && (pc.Summed? ==>
          && pc.job < |c.second[w]|
          && forall i, j :: InTile2(c, c.second[w][pc.job], i, j) ==> pc.total(i, j) == MatMul(c, i, j))
    && (PastBarrier(pc) ==> s.arrived == |c.first|)
  }

  ghost predicate TmpOk(c: Config, s: State)
    requires Valid(c) && |s.workers| == |c.first|
  {
    && (forall i, j, t :: s.tmp(i, j, t) == 0.0 || (0 <= t < NumTiles(0, c.k, BlockK(c)) && s.tmp(i, j, t) == Partial(c, i, j, t)))
    && (forall w, t :: 0 <= w < |c.first| && 0 <= t < Stored(c, w, s.workers[w]) && t < |c.first[w]| ==> TileStored(c, s, c.first[w][t]))
  }

  ghost predicate OutOk(c: Config, s: State)
    requires Valid(c) && |s.workers| == |c.first|
  {
    && (forall i, j :: (i, j) in s.out ==> s.out[(i, j)] == MatMul(c, i, j))
    && (forall w, t, i, j :: 0 <= w < |c.second| && 0 <= t < Reduced(s.workers[w]) && t < |c.second[w]| && InTile2(c, c.second[w][t], i, j)
                             ==> (i, j) in s.out)
  }

  ghost predicate Inv(c: Config, s: State)
    requires Valid(c)
  {
    && |s.workers| == |c.first|
    && s.arrived == CountArrived(s.workers)
    && (forall w :: 0 <= w < |s.workers| ==> WorkerOk(c, w, s))
    && TmpOk(c, s)
    && OutOk(c, s)
  }

  lemma {:induction false} CountBound(workers: seq<Pc>)
    ensures CountArrived(workers) <= |workers|
    ensures CountArrived(workers) == |workers| ==> forall w :: 0 <= w < |workers| ==> HasArrived(workers[w])
    ensures (forall w :: 0 <= w < |workers| ==> HasArrived(workers[w])) ==> CountArrived(workers) == |workers|
  {
    if workers != [] {
      var front := workers[..|workers| - 1];
      CountBound(front);
      assert forall w :: 0 <= w < |front| ==> front[w] == workers[w];
    }
  }

  lemma {:induction false} CountUpdate(workers: seq<Pc>, w: nat, pc: Pc)
    requires w < |workers|
    ensures CountArrived(workers[w := pc])
         == CountArrived(workers) - (if HasArrived(workers[w]) then 1 else 0) + (if HasArrived(pc) then 1 else 0)
  {
    var last, updated := |workers| - 1, workers[w := pc];
    if w == last {
      assert updated[..last] == workers[..last];
    } else {
      CountUpdate(workers[..last], w, pc);
      assert updated[..last] == workers[..last][w := pc];
    }
  }

  /** No second-phase read happens before every first-phase store: the slices are then final. */
  lemma BarrierSeparatesPhases(c: Config, s: State, i: int, j: int, t: int)
    requires Valid(c) && Inv(c, s)
    requires s.arrived == |c.first|
    requires 0 <= i < c.m && 0 <= j < c.n
    ensures s.tmp(i, j, t) == Partial(c, i, j, t)
  {
    CountBound(s.workers);
    if 0 <= t < NumTiles(0, c.k, BlockK(c)) {
      TilesPartition(0, c.m, c.blockM, i / c.blockM, i);
      TilesPartition(0, c.n, c.blockN, j / c.blockN, j);
      var tile := Tile3(i / c.blockM, j / c.blockN, t);
      assert IsTile3(c, tile);
      var w :| 0 <= w < |c.first| && tile in c.first[w];
      var index :| 0 <= index < |c.first[w]| && c.first[w][index] == tile;
      assert Stored(c, w, s.workers[w]) == |c.first[w]|;
      assert TileStored(c, s, c.first[w][index]);
      assert InTile3(c, tile, i, j);
    }
  }

  /** Reducing the slices, unused ones included, is the whole dot product. */
  lemma SlicesSumToProduct(c: Config, s: State, i: int, j: int)
    requires Valid(c) && Inv(c, s)
    requires s.arrived == |c.first|
    requires 0 <= i < c.m && 0 <= j < c.n
    ensures Sum(t => s.tmp(i, j, t), 0, c.splitK) == MatMul(c, i, j)
  {
    SliceFits(c.k, c.splitK);
    var f, g := t => s.tmp(i, j, t), t => Partial(c, i, j, t);
    var used := NumTiles(0, c.k, BlockK(c));
    forall t
      ensures f(t) == g(t)
    {
      BarrierSeparatesPhases(c, s, i, j, t);
    }
    SumEq(f, g, 0, c.splitK);
    SumSplit(g, 0, used, c.splitK);
    SumZero(g, used, c.splitK);
    SumOverTiles(Product(c, i, j), g, 0, c.k, BlockK(c));
  }

  lemma {:induction false} InitCount(workers: seq<Pc>)
    requires forall w :: 0 <= w < |workers| ==> workers[w] == Next(0)
    ensures CountArrived(workers) == 0
  {
    if workers != [] {
      InitCount(workers[..|workers| - 1]);
    }
  }

  lemma InitInv(c: Config, s: State)
    requires Valid(c) && Init(c, s)
    ensures Inv(c, s)
  {
    InitCount(s.workers);
  }

  lemma TileRange(c: Config, tile: Tile3)
    requires Sized(c) && IsTile3(c, tile)
    ensures OuterBegin(c, tile) <= OuterEnd(c, tile)
  {
    CdivCovers(c.k, BlockK(c));
    MulMonotone(tile.k, NumTiles(0, c.k, BlockK(c)) - 1, BlockK(c));
  }

  lemma EnterInv(c: Config, w: nat, s: State, s': State)
    requires Valid(c) && Inv(c, s) && w < |s.workers| && |s'.workers| == |s.workers| && Enter(c, w, s, s')
    ensures Inv(c, s')
  {
    CountUpdate(s.workers, w, s'.workers[w]);
    TileRange(c, c.first[w][s.workers[w].job]);
    assert WorkerOk(c, w, s');
    forall v | 0 <= v < |s'.workers|
      ensures WorkerOk(c, v, s')
    {
      assert WorkerOk(c, v, s);
    }
    forall v, t | 0 <= v < |c.first| && 0 <= t < Stored(c, v, s'.workers[v]) && t < |c.first[v]|
      ensures TileStored(c, s', c.first[v][t])
    {
      assert TileStored(c, s, c.first[v][t]);
    }
  }

  lemma AccumulateInv(c: Config, w: nat, s: State, s': State)
    requires Valid(c) && Inv(c, s) && w < |s.workers| && |s'.workers| == |s.workers| && Accumulate(c, w, s, s')
    ensures Inv(c, s')
  {
    CountUpdate(s.workers, w, s'.workers[w]);
    assert WorkerOk(c, w, s);
    var begin := OuterBegin(c, c.first[w][s.workers[w].job]);
    forall i, j
      ensures s'.workers[w].acc(i, j) == Sum(Product(c, i, j), begin, s'.workers[w].x)
    {
      SumSplit(Product(c, i, j), begin, s.workers[w].x, s'.workers[w].x);
    }
    assert WorkerOk(c, w, s');
    forall v | 0 <= v < |s'.workers|
      ensures WorkerOk(c, v, s')
    {
      assert WorkerOk(c, v, s);
    }
    forall v, t | 0 <= v < |c.first| && 0 <= t < Stored(c, v, s'.workers[v]) && t < |c.first[v]|
      ensures TileStored(c, s', c.first[v][t])
    {
      assert TileStored(c, s, c.first[v][t]);
    }
  }

  lemma StorePartialInv(c: Config, w: nat, s: State, s': State)
    requires Valid(c) && Inv(c, s) && w < |s.workers| && |s'.workers| == |s.workers| && StorePartial(c, w, s, s')
    ensures Inv(c, s')
  {
    CountUpdate(s.workers, w, s'.workers[w]);
    assert WorkerOk(c, w, s);
    var tile := c.first[w][s.workers[w].job];
    assert IsTile3(c, tile);
    forall i, j | InTile3(c, tile, i, j)
      ensures s'.tmp(i, j, tile.k) == Partial(c, i, j, tile.k)
    {
    }
    assert TileStored(c, s', tile);
    forall v | 0 <= v < |s'.workers|
      ensures WorkerOk(c, v, s')
    {
      assert WorkerOk(c, v, s);
    }
    forall v, t | 0 <= v < |c.first| && 0 <= t < Stored(c, v, s'.workers[v]) && t < |c.first[v]|
      ensures TileStored(c, s', c.first[v][t])
    {
      if v != w || t < s.workers[w].job {
        assert TileStored(c, s, c.first[v][t]);
      }
    }
  }

  lemma ArriveInv(c: Config, w: nat, s: State, s': State)
    requires Valid(c) && Inv(c, s) && w < |s.workers| && Arrive(c, w, s, s')
    ensures Inv(c, s')
  {
    CountUpdate(s.workers, w, s'.workers[w]);
    CountBound(s.workers);
    forall v | 0 <= v < |s'.workers|
      ensures WorkerOk(c, v, s')
    {
      assert WorkerOk(c, v, s);
    }
    forall v, t | 0 <= v < |c.first| && 0 <= t < Stored(c, v, s'.workers[v]) && t < |c.first[v]|
      ensures TileStored(c, s', c.first[v][t])
    {
      assert TileStored(c, s, c.first[v][t]);
    }
  }

  lemma PassInv(c: Config, w: nat, s: State, s': State)
    requires Valid(c) && Inv(c, s) && w < |s.workers| && Pass(c, w, s, s')
    ensures Inv(c, s')
  {
    CountUpdate(s.workers, w, s'.workers[w]);
    forall v | 0 <= v < |s'.workers|
      ensures WorkerOk(c, v, s')
    {
      assert WorkerOk(c, v, s);
    }
    forall v, t | 0 <= v < |c.first| && 0 <= t < Stored(c, v, s'.workers[v]) && t < |c.first[v]|
      ensures TileStored(c, s', c.first[v][t])
    {
      assert TileStored(c, s, c.first[v][t]);
    }
  }

  lemma ReadPartialsInv(c: Config, w: nat, s: State, s': State)
    requires Valid(c) && Inv(c, s) && w < |s.workers| && |s'.workers| == |s.workers| && ReadPartials(c, w, s, s')
    ensures Inv(c, s')
  {
    CountUpdate(s.workers, w, s'.workers[w]);
    assert WorkerOk(c, w, s);
    var tile := c.second[w][s.workers[w].job];
    forall i, j | InTile2(c, tile, i, j)
      ensures s'.workers[w].total(i, j) == MatMul(c, i, j)
    {
      TilesPartition(0, c.m, c.blockM2, tile.m, i);
      TilesPartition(0, c.n, c.blockN2, tile.n, j);
      SlicesSumToProduct(c, s, i, j);
    }
    assert WorkerOk(c, w, s');
    forall v | 0 <= v < |s'.workers|
      ensures WorkerOk(c, v, s')
    {
      assert WorkerOk(c, v, s);
    }
    forall v, t | 0 <= v < |c.first| && 0 <= t < Stored(c, v, s'.workers[v]) && t < |c.first[v]|
      ensures TileStored(c, s', c.first[v][t])
    {
      assert TileStored(c, s, c.first[v][t]);
    }
  }

  lemma StoreOutInv(c: Config, w: nat, s: State, s': State)
    requires Valid(c) && Inv(c, s) && w < |s.workers| && StoreOut(c, w, s, s')
    ensures Inv(c, s')
  {
    hide Sum, InTile3, InTile, OuterBegin, OuterEnd, Partial, Product, MatMul, CountArrived;
    CountUpdate(s.workers, w, s'.workers[w]);
    assert WorkerOk(c, w, s);
    forall v | 0 <= v < |s'.workers|
      ensures WorkerOk(c, v, s')
    {
      assert WorkerOk(c, v, s);
    }
    forall v, t | 0 <= v < |c.first| && 0 <= t < Stored(c, v, s'.workers[v]) && t < |c.first[v]|
      ensures TileStored(c, s', c.first[v][t])
    {
      assert TileStored(c, s, c.first[v][t]);
    }
  }

  lemma StepInv(c: Config, w: nat, s: State, s': State)
    requires Valid(c) && Inv(c, s) && Step(c, w, s, s')
    ensures Inv(c, s')
  {
    if Enter(c, w, s, s') {
      EnterInv(c, w, s, s');
    } else if Accumulate(c, w, s, s') {
      AccumulateInv(c, w, s, s');
    } else if StorePartial(c, w, s, s') {
      StorePartialInv(c, w, s, s');
    } else if Arrive(c, w, s, s') {
      ArriveInv(c, w, s, s');
    } else if Pass(c, w, s, s') {
      PassInv(c, w, s, s');
    } else if ReadPartials(c, w, s, s') {
      ReadPartialsInv(c, w, s, s');
    } else {
      StoreOutInv(c, w, s, s');
    }
  }

  lemma {:induction false} RunInv(c: Config, run: seq<State>, schedule: seq<nat>, i: nat)
    requires Valid(c) && IsRun(c, run, schedule) && i < |run|
    ensures Inv(c, run[i])
  {
    if i == 0 {
      InitInv(c, run[0]);
    } else {
      RunInv(c, run, schedule, i - 1);
      StepInv(c, schedule[i - 1], run[i - 1], run[i]);
    }
  }

  /** Safety on every run: whatever has been stored in out is already the matrix product. */
  lemma OutIsNeverWrong(c: Config, run: seq<State>, schedule: seq<nat>, i: nat, row: int, col: int)
    requires Valid(c) && IsRun(c, run, schedule) && i < |run|
    requires (row, col) in run[i].out
    ensures run[i].out[(row, col)] == MatMul(c, row, col)
  {
    RunInv(c, run, schedule, i);
  }

  /** On every run, a worker past the barrier sees the final value of every slice of tmp. */
  lemma NoEarlyRead(c: Config, run: seq<State>, schedule: seq<nat>, at: nat, w: nat, i: int, j: int, t: int)
    requires Valid(c) && IsRun(c, run, schedule) && at < |run|
    requires w < |run[at].workers| && PastBarrier(run[at].workers[w])
    requires 0 <= i < c.m && 0 <= j < c.n
    ensures run[at].tmp(i, j, t) == Partial(c, i, j, t)
  {
    RunInv(c, run, schedule, at);
    assert WorkerOk(c, w, run[at]);
    BarrierSeparatesPhases(c, run[at], i, j, t);
  }

  /** Every complete run, whatever its interleaving, ends with out = a . b. */
  lemma CompleteRunIsMatMul(c: Config, run: seq<State>, schedule: seq<nat>, i: int, j: int)
    requires Valid(c) && IsRun(c, run, schedule)
    requires Complete(c, run[|run| - 1])
    requires 0 <= i < c.m && 0 <= j < c.n
    ensures (i, j) in run[|run| - 1].out
    ensures run[|run| - 1].out[(i, j)] == MatMul(c, i, j)
  {
    var s := run[|run| - 1];
    RunInv(c, run, schedule, |run| - 1);
    TilesPartition(0, c.m, c.blockM2, i / c.blockM2, i);
    TilesPartition(0, c.n, c.blockN2, j / c.blockN2, j);
    var tile := Tile2(i / c.blockM2, j / c.blockN2);
    assert IsTile2(c, tile);
    var w :| 0 <= w < |c.second| && tile in c.second[w];
    var index :| 0 <= index < |c.second[w]| && c.second[w][index] == tile;
    assert Reduced(s.workers[w]) == |c.second[w]|;
    assert InTile2(c, c.second[w][index], i, j);
  }

  function OutRow(out: map<(int, int), real>, i: int): int -> real {
    j => if (i, j) in out then out[(i, j)] else 0.0
  }

  /** As a linear map, out first applies b and then a. */
  lemma OutAppliesFactors(c: Config, run: seq<State>, schedule: seq<nat>, i: int, z: int -> real)
    requires Valid(c) && IsRun(c, run, schedule)
    requires Complete(c, run[|run| - 1])
    requires 0 <= i < c.m
    ensures forall j :: 0 <= j < c.n ==> (i, j) in run[|run| - 1].out
    ensures Sum(Times(OutRow(run[|run| - 1].out, i), z), 0, c.n)
         == Sum(Times(RowOf(c.a, i), MatrixVector(c.b, z, c.n)), 0, c.k)
  {
    hide Sum, Valid, Complete;
    var out := run[|run| - 1].out;
    forall j | 0 <= j < c.n
      ensures (i, j) in out && OutRow(out, i)(j) == Sum(Times(RowOf(c.a, i), ColumnOf(c.b, j)), 0, c.k)
    {
      CompleteRunIsMatMul(c, run, schedule, i, j);
      SumEq(Product(c, i, j), Times(RowOf(c.a, i), ColumnOf(c.b, j)), 0, c.k);
    }
    SumAssociates(RowOf(c.a, i), c.b, z, OutRow(out, i), MatrixVector(c.b, z, c.n), 0, c.k, 0, c.n);
  }

  /** InTile3 in executable form. */
  predicate Covered(c: Config, t: Tile3, i: int, j: int) {
    && TileBegin(0, c.blockM, t.m) <= i < TileEnd(0, c.m, c.blockM, t.m)
    && TileBegin(0, c.blockN, t.n) <= j < TileEnd(0, c.n, c.blockN, t.n)
  }

  lemma FirstPhaseStep(c: Config, w: nat, s: State) returns (next: State)
    requires Valid(c) && Inv(c, s) && w < |s.workers| && !HasArrived(s.workers[w])
    ensures Step(c, w, s, next)
  {
    assert WorkerOk(c, w, s);
    match s.workers[w]
    case Next(job) =>
      if job < |c.first[w]| {
        next := s.(workers := s.workers[w := Inner(job, OuterBegin(c, c.first[w][job]), (i, j) => 0.0)]);
        assert Enter(c, w, s, next);
      } else {
        next := s.(arrived := s.arrived + 1, workers := s.workers[w := Waiting]);
        assert Arrive(c, w, s, next);
      }
    case Inner(job, x, acc) =>
      var tile := c.first[w][job];
      var end := OuterEnd(c, tile);
      if x < end {
        var hi := if x + c.blockInner < end then x + c.blockInner else end;
        next := s.(workers := s.workers[w := Inner(job, hi, (i, j) => acc(i, j) + Sum(Product(c, i, j), x, hi))]);
        assert Accumulate(c, w, s, next);
      } else {
        var tmp: (int, int, int) -> real := (i, j, t) =>
          if Covered(c, tile, i, j) && t == tile.k then acc(i, j) else s.tmp(i, j, t);
        next := s.(tmp := tmp, workers := s.workers[w := Next(job + 1)]);
        forall i, j
          ensures Covered(c, tile, i, j) <==> InTile3(c, tile, i, j)
        {
        }
        assert StorePartial(c, w, s, next);
      }
  }

  lemma TileValues(c: Config, tile: Tile2, total: (int, int) -> real) returns (block: map<(int, int), real>)
    requires Sized(c)
    ensures forall i, j :: (i, j) in block <==> InTile2(c, tile, i, j)
    ensures forall i, j :: (i, j) in block ==> block[(i, j)] == total(i, j)
  {
    block := map i: int, j: int | 0 <= i < c.m && 0 <= j < c.n && InTile2(c, tile, i, j) :: (i, j) := total(i, j);
    forall i, j
      ensures (i, j) in block <==> InTile2(c, tile, i, j)
    {
      TilesPartition(0, c.m, c.blockM2, tile.m, i);
      TilesPartition(0, c.n, c.blockN2, tile.n, j);
    }
  }

  lemma SecondPhaseStep(c: Config, w: nat, s: State) returns (next: State)
    requires Valid(c) && Inv(c, s) && w < |s.workers| && s.workers[w] != Second(|c.second[w]|)
    requires HasArrived(s.workers[w]) && s.arrived == |c.first|
    ensures Step(c, w, s, next)
  {
    assert WorkerOk(c, w, s);
    match s.workers[w]
    case Waiting =>
      next := s.(workers := s.workers[w := Second(0)]);
      assert Pass(c, w, s, next);
    case Second(job) =>
      next := s.(workers := s.workers[w := Summed(job, (i, j) => Sum(t => s.tmp(i, j, t), 0, c.splitK))]);
      assert ReadPartials(c, w, s, next);
    case Summed(job, total) =>
      var block := TileValues(c, c.second[w][job], total);
      next := s.(out := s.out + block, workers := s.workers[w := Second(job + 1)]);
      assert StoreOut(c, w, s, next);
  }

  /** The barrier cannot block: a run that is not complete can take a step. */
  lemma NoDeadlock(c: Config, run: seq<State>, schedule: seq<nat>) returns (w: nat, next: State)
    requires Valid(c) && IsRun(c, run, schedule)
    requires !Complete(c, run[|run| - 1])
    ensures Step(c, w, run[|run| - 1], next)
  {
    var s := run[|run| - 1];
    RunInv(c, run, schedule, |run| - 1);
    CountBound(s.workers);
    if s.arrived < |c.first| {
      w :| w < |s.workers| && !HasArrived(s.workers[w]);
      next := FirstPhaseStep(c, w, s);
    } else {
      w :| w < |s.workers| && s.workers[w] != Second(|c.second[w]|);
      next := SecondPhaseStep(c, w, s);
    }
  }

  // Every run is finite, so by NoDeadlock it can be extended to a complete one (ExtendsToComplete).

  /** The steps a worker has left at most. */
  function Rank(c: Config, w: nat, pc: Pc): int
    requires w < |c.first| == |c.second|
  {
    var base := 2 * |c.second[w]|;
    match pc
    case Next(job) => base + 2 + (|c.first[w]| - job) * (c.k + 3)
    case Inner(job, x, _) => base + 2 + (|c.first[w]| - job - 1) * (c.k + 3) + (c.k - x) + 2
    case Waiting => base + 1
    case Second(job) => 2 * (|c.second[w]| - job)
    case Summed(job, _) => 2 * (|c.second[w]| - job) - 1
  }

  function TotalRank(c: Config, workers: seq<Pc>): int
    requires |workers| <= |c.first| == |c.second|
  {
    if workers == [] then 0
    else TotalRank(c, workers[..|workers| - 1]) + Rank(c, |workers| - 1, workers[|workers| - 1])
  }

  lemma {:induction false} TotalRankUpdate(c: Config, workers: seq<Pc>, w: nat, pc: Pc)
    requires w < |workers| <= |c.first| == |c.second|
    ensures TotalRank(c, workers[w := pc]) == TotalRank(c, workers) - Rank(c, w, workers[w]) + Rank(c, w, pc)
  {
    var last, updated := |workers| - 1, workers[w := pc];
    if w == last {
      assert updated[..last] == workers[..last];
    } else {
      TotalRankUpdate(c, workers[..last], w, pc);
      assert updated[..last] == workers[..last][w := pc];
    }
  }

  lemma TileBounds(c: Config, tile: Tile3)
    requires Sized(c) && IsTile3(c, tile)
    ensures 0 <= OuterBegin(c, tile) && OuterEnd(c, tile) <= c.k
  {
    MulMonotone(0, tile.k, BlockK(c));
  }

  lemma StepLowersRank(c: Config, w: nat, s: State, s': State)
    requires Valid(c) && Inv(c, s) && Step(c, w, s, s')
    ensures Rank(c, w, s'.workers[w]) < Rank(c, w, s.workers[w])
  {
    hide Sum, InTile3, InTile2, MatMul, Product, TmpOk, OutOk, OuterBegin, OuterEnd, CountArrived, IsTile3, IsTile2;
    assert WorkerOk(c, w, s);
    var pc := s.workers[w];
    if pc.Next? && pc.job < |c.first[w]| {
      TileBounds(c, c.first[w][pc.job]);
      NextMultiple(|c.first[w]| - pc.job - 1, c.k + 3);
    } else if pc.Inner? {
      TileBounds(c, c.first[w][pc.job]);
    }
  }

  lemma WorkerRankIsNatural(c: Config, s: State, w: nat)
    requires Valid(c) && Inv(c, s) && w < |s.workers|
    ensures Rank(c, w, s.workers[w]) >= 0
  {
    hide TmpOk, OutOk, OuterBegin, OuterEnd, Sum, MatMul;
    assert WorkerOk(c, w, s);
    var pc := s.workers[w];
    if pc.Next? {
      MulMonotone(0, |c.first[w]| - pc.job, c.k + 3);
    } else if pc.Inner? {
      MulMonotone(0, |c.first[w]| - pc.job - 1, c.k + 3);
      TileBounds(c, c.first[w][pc.job]);
    }
  }

  lemma {:induction false} RankIsNatural(c: Config, s: State, n: nat)
    requires Valid(c) && Inv(c, s) && n <= |s.workers|
    ensures TotalRank(c, s.workers[..n]) >= 0
  {
    hide Rank, WorkerOk, TmpOk, OutOk;
    if n > 0 {
      RankIsNatural(c, s, n - 1);
      assert s.workers[..n][..n - 1] == s.workers[..n - 1];
      WorkerRankIsNatural(c, s, n - 1);
    }
  }

  lemma OneWorkerMoves(c: Config, w: nat, s: State, s': State)
    requires Valid(c) && Step(c, w, s, s')
    ensures s'.workers == s.workers[w := s'.workers[w]]
  {
  }

  /** No schedule is longer than the work there is. */
  lemma {:induction false} RunsAreBounded(c: Config, run: seq<State>, schedule: seq<nat>, i: nat)
    requires Valid(c) && IsRun(c, run, schedule) && i < |run|
    ensures Inv(c, run[0]) && Inv(c, run[i])
    ensures i <= TotalRank(c, run[0].workers) - TotalRank(c, run[i].workers)
    ensures i <= TotalRank(c, run[0].workers)
  {
    RunInv(c, run, schedule, 0);
    RunInv(c, run, schedule, i);
    assert run[i].workers[..|run[i].workers|] == run[i].workers;
    RankIsNatural(c, run[i], |run[i].workers|);
    if i > 0 {
      RunsAreBounded(c, run, schedule, i - 1);
      StepLowersRank(c, schedule[i - 1], run[i - 1], run[i]);
      TotalRankUpdate(c, run[i - 1].workers, schedule[i - 1], run[i].workers[schedule[i - 1]]);
      OneWorkerMoves(c, schedule[i - 1], run[i - 1], run[i]);
    }
  }

  lemma RankOfState(c: Config, s: State) returns (rank: nat)
    requires Valid(c) && Inv(c, s)
    ensures rank == TotalRank(c, s.workers)
  {
    hide Rank, WorkerOk, TmpOk, OutOk, TotalRank;
    assert s.workers[..|s.workers|] == s.workers;
    RankIsNatural(c, s, |s.workers|);
    rank := TotalRank(c, s.workers);
  }

  lemma WorkerInRange(c: Config, w: nat, s: State, s': State)
    requires Valid(c) && Step(c, w, s, s')
    ensures w < |s.workers| == |s'.workers|
  {
  }

  /** One more step of a run that is not complete: less is left to do. */
  lemma OneMoreStep(c: Config, run: seq<State>, schedule: seq<nat>) returns (w: nat, next: State, left: nat)
    requires Valid(c) && IsRun(c, run, schedule) && !Complete(c, run[|run| - 1])
    ensures IsRun(c, run + [next], schedule + [w])
    ensures Inv(c, run[|run| - 1]) && Inv(c, next) && left == TotalRank(c, next.workers) < TotalRank(c, run[|run| - 1].workers)
  {
    hide Rank, WorkerOk, TmpOk, OutOk, TotalRank, Step, Init, Complete;
    var s := run[|run| - 1];
    RunInv(c, run, schedule, |run| - 1);
    w, next := NoDeadlock(c, run, schedule);
    StepInv(c, w, s, next);
    OneWorkerMoves(c, w, s, next);
    WorkerInRange(c, w, s, next);
    StepLowersRank(c, w, s, next);
    TotalRankUpdate(c, s.workers, w, next.workers[w]);
    left := RankOfState(c, next);
  }

  lemma {:induction false} ExtendsWithin(c: Config, run: seq<State>, schedule: seq<nat>, left: nat)
    returns (longer: seq<State>, continued: seq<nat>)
    requires Valid(c) && IsRun(c, run, schedule) && Inv(c, run[|run| - 1])
    requires left == TotalRank(c, run[|run| - 1].workers)
    ensures IsRun(c, longer, continued) && run <= longer && schedule <= continued
    ensures Complete(c, longer[|longer| - 1])
    decreases left
  {
    hide TotalRank, Inv, Complete, Init, Step;
    longer, continued := run, schedule;
    if !Complete(c, run[|run| - 1]) {
      var w, next, less := OneMoreStep(c, run, schedule);
      longer, continued := ExtendsWithin(c, run + [next], schedule + [w], less);
    }
  }

  /** From any state of any run some continuation reaches a complete one. */
  lemma ExtendsToComplete(c: Config, run: seq<State>, schedule: seq<nat>) returns (longer: seq<State>, continued: seq<nat>)
    requires Valid(c) && IsRun(c, run, schedule)
    ensures IsRun(c, longer, continued) && run <= longer && schedule <= continued
    ensures Complete(c, longer[|longer| - 1])
  {
    RunInv(c, run, schedule, |run| - 1);
    var left := RankOfState(c, run[|run| - 1]);
    longer, continued := ExtendsWithin(c, run, schedule, left);
  }
}
