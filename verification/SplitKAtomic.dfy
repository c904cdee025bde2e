// examples/matmul_split_k.py: split-K matmul that accumulates with hl.atomic_add and
// applies its epilogue on the first split only.
module SplitKAtomic {
  import opened Sums
  import opened Tiling
  import A = AtomicAdds

  datatype Config = Config(
    m: nat, n: nat, k: nat, splitK: nat, blockM: nat, blockN: nat,
    x: (int, int) -> real, y: (int, int) -> real, epilogue: (real, int, int) -> real)

  function KBlock(c: Config): int
    requires c.splitK > 0
  {
    NextPowerOf2(Cdiv(c.k, c.splitK))
  }

  ghost predicate Valid(c: Config) {
    c.splitK > 0 && c.blockM > 0 && c.blockN > 0 && KBlock(c) > 0
  }

  function Product(c: Config, i: int, j: int): int -> real {
    k => c.x(i, k) * c.y(k, j)
  }

  function MatMul(c: Config, i: int, j: int): real {
    Sum(Product(c, i, j), 0, c.k)
  }

  /** The accumulation loop of one program at one output element. */
  method InnerLoop(c: Config, begin: int, end: int, block: nat, i: int, j: int) returns (acc: real)
    requires begin <= end && block > 0
    ensures acc == Sum(Product(c, i, j), begin, end)
  {
    acc := 0.0;
    var lo := begin;
    while lo < end
      invariant begin <= lo <= end
      invariant acc == Sum(Product(c, i, j), begin, lo)
    {
      var hi := if lo + block < end then lo + block else end;
      SumSplit(Product(c, i, j), begin, lo, hi);
      acc := acc + Sum(Product(c, i, j), lo, hi);
      lo := hi;
    }
  }

  function Splits(c: Config): nat
    requires Valid(c)
  {
    NumTiles(0, c.k, KBlock(c))
  }

  function PartialProduct(c: Config, i: int, j: int, t: int): real
    requires c.splitK > 0
  {
    Sum(Product(c, i, j), TileBegin(0, KBlock(c), t), TileEnd(0, c.k, KBlock(c), t))
  }

  /** What the program of outer tile t adds at (i, j). */
  function Contribution(c: Config, i: int, j: int, t: int): real
    requires c.splitK > 0
  {
    if TileBegin(0, KBlock(c), t) == 0
    then c.epilogue(PartialProduct(c, i, j, t), i, j)
    else PartialProduct(c, i, j, t)
  }

  /** One program at one element of its tile: the loop over its own k range, then the epilogue if that range starts at 0. */
  method RunProgram(c: Config, t: nat, block: nat, i: int, j: int) returns (acc: real)
    requires Valid(c) && t < Splits(c) && block > 0
    ensures acc == Contribution(c, i, j, t)
  {
    hide Sum, KBlock, NumTiles, TileBegin, TileEnd;
    TilesAdjoin(0, c.k, KBlock(c), t);
    var begin, end := TileBegin(0, KBlock(c), t), TileEnd(0, c.k, KBlock(c), t);
    acc := InnerLoop(c, begin, end, block, i, j);
    if begin == 0 {
      acc := c.epilogue(acc, i, j);
    }
  }

  // The grid of (m, n, outer_k) tiles.

  /** Program (tm, tn, t) of the grid adds to cell (i, j). */
  ghost predicate Issues(c: Config, tm: int, tn: int, t: int, i: int, j: int)
    requires Valid(c)
  {
    InTile(0, c.m, c.blockM, tm, i) && InTile(0, c.n, c.blockN, tn, j) && 0 <= t < Splits(c)
  }

  /** Each outer split adds to each cell from exactly one output tile. */
  lemma OneProgramPerSplit(c: Config, tm: int, tn: int, t: int, i: int, j: int)
    requires Valid(c)
    ensures Issues(c, tm, tn, t, i, j)
            <==> 0 <= i < c.m && 0 <= j < c.n && 0 <= t < Splits(c)
                 && tm == i / c.blockM && tn == j / c.blockN
  {
    TilesPartition(0, c.m, c.blockM, tm, i);
    TilesPartition(0, c.n, c.blockN, tn, j);
  }

  /** The grid in some numbering: program (tm, tn, t) is number (tm * columns + tn) * splits + t. */
  function Programs(c: Config): int
    requires Valid(c)
  {
    NumTiles(0, c.m, c.blockM) * NumTiles(0, c.n, c.blockN) * Splits(c)
  }

  /** Program number g, by its own tiles. */
  ghost predicate IssuesNumbered(c: Config, g: int, i: int, j: int)
    requires Valid(c)
  {
    var columns, splits := NumTiles(0, c.n, c.blockN), Splits(c);
    splits > 0 && columns > 0 && Issues(c, g / splits / columns, g / splits % columns, g % splits, i, j)
  }

  /** hl.atomic_add of every program of the grid, over its own output tile. */
  ghost function Plan(c: Config): A.Plan
    requires Valid(c)
  {
    A.Plan(if Programs(c) < 0 then 0 else Programs(c),
           (i, j, g) => IssuesNumbered(c, g, i, j),
           (i, j, g) => if Splits(c) > 0 then Contribution(c, i, j, g % Splits(c)) else 0.0)
  }

  /** The first number of the programs that hold cell (i, j); they are consecutive, one for each split. */
  function FirstProgram(c: Config, i: int, j: int): int
    requires Valid(c)
  {
    (i / c.blockM * NumTiles(0, c.n, c.blockN) + j / c.blockN) * Splits(c)
  }

  lemma SomeColumn(c: Config, j: int)
    requires Valid(c) && 0 <= j < c.n
    ensures 0 <= j / c.blockN < NumTiles(0, c.n, c.blockN)
  {
    DivBounds(j, c.n, c.blockN);
  }

  /** Of all programs of the grid exactly those of the cell's own output tile, one for each split, add to it. */
  lemma GridIssues(c: Config, g: int, i: int, j: int)
    requires Valid(c) && 0 <= i < c.m && 0 <= j < c.n
    ensures IssuesNumbered(c, g, i, j)
            <==> FirstProgram(c, i, j) <= g < FirstProgram(c, i, j) + Splits(c)
    ensures IssuesNumbered(c, g, i, j) ==> g % Splits(c) == g - FirstProgram(c, i, j)
  {
    hide Splits, NumTiles, KBlock, InTile, Issues;
    var columns, splits := NumTiles(0, c.n, c.blockN), Splits(c);
    DivBounds(j, c.n, c.blockN);
    SomeColumn(c, j);
    if splits > 0 {
      var tm, tn := i / c.blockM, j / c.blockN;
      OneProgramPerSplit(c, g / splits / columns, g / splits % columns, g % splits, i, j);
      DivMod(g, splits);
      DivModUnique(g / splits, tm, tn, columns);
      NextMultiple(tm * columns + tn, splits);
      if FirstProgram(c, i, j) <= g < FirstProgram(c, i, j) + splits {
        DivModUnique(g, tm * columns + tn, g - FirstProgram(c, i, j), splits);
      }
    }
  }

  lemma SomeRow(c: Config, i: int)
    requires Valid(c) && 0 <= i < c.m
    ensures 0 <= i / c.blockM < NumTiles(0, c.m, c.blockM)
  {
    DivBounds(i, c.m, c.blockM);
  }

  /** The programs of a cell are programs of the grid. */
  lemma ProgramsInGrid(c: Config, i: int, j: int)
    requires Valid(c) && 0 <= i < c.m && 0 <= j < c.n
    ensures 0 <= FirstProgram(c, i, j) && FirstProgram(c, i, j) + Splits(c) <= Programs(c)
  {
    hide Splits, NumTiles, KBlock;
    SomeRow(c, i);
    SomeColumn(c, j);
    var rows, columns, splits := NumTiles(0, c.m, c.blockM), NumTiles(0, c.n, c.blockN), Splits(c);
    var number := i / c.blockM * columns + j / c.blockN;
    GridNumber(i / c.blockM, j / c.blockN, rows, columns);
    MulMonotone(0, number, splits);
    MulMonotone(number + 1, rows * columns, splits);
    NextMultiple(number, splits);
  }

  ghost predicate AddsBias(c: Config, bias: (int, int) -> real) {
    forall acc, i, j :: c.epilogue(acc, i, j) == acc + bias(i, j)
  }

  /** The first split is the only one that begins at 0. */
  lemma FirstSplit(c: Config, t: nat)
    requires Valid(c)
    ensures TileBegin(0, KBlock(c), t) == 0 <==> t == 0
  {
    if t > 0 {
      MulMonotone(1, t, KBlock(c));
    }
  }

  function SplitTerms(c: Config, i: int, j: int): int -> real
    requires Valid(c)
  {
    t => if c.splitK > 0 then Contribution(c, i, j, t) else 0.0
  }

  function PartialTerms(c: Config, i: int, j: int): int -> real
    requires Valid(c)
  {
    t => if c.splitK > 0 then PartialProduct(c, i, j, t) else 0.0
  }

  /** All splits together: the product, and the bias once unless there is no split at all. */
  lemma ContributionsSum(c: Config, bias: (int, int) -> real, i: int, j: int)
    requires Valid(c) && AddsBias(c, bias)
    ensures Sum(SplitTerms(c, i, j), 0, Splits(c)) == MatMul(c, i, j) + if c.k > 0 then bias(i, j) else 0.0
  {
    hide Sum, KBlock, NumTiles, TileBegin, TileEnd;
    var all, plain := SplitTerms(c, i, j), PartialTerms(c, i, j);
    SumOverTiles(Product(c, i, j), plain, 0, c.k, KBlock(c));
    forall t | 0 <= t < Splits(c)
      ensures all(t) == plain(t) + if t == 0 then bias(i, j) else 0.0
    {
      FirstSplit(c, t);
    }
    NoTiles(0, c.k, KBlock(c));
    if c.k > 0 {
      SumUpdate(plain, all, 0, Splits(c), 0);
    } else {
      SumZero(all, 0, 0);
      SumZero(plain, 0, 0);
    }
  }

  /** Over the whole grid a cell is issued one contribution of each split. */
  lemma GridSum(c: Config, i: int, j: int)
    requires Valid(c) && 0 <= i < c.m && 0 <= j < c.n
    ensures Programs(c) >= 0
    ensures Sum(A.IssuedTerms(Plan(c), i, j), 0, Programs(c)) == Sum(SplitTerms(c, i, j), 0, Splits(c))
  {
    hide Sum, Contribution, Programs, FirstProgram, Splits, IssuesNumbered;
    var first, issued := FirstProgram(c, i, j), A.IssuedTerms(Plan(c), i, j);
    ProgramsInGrid(c, i, j);
    forall g | 0 <= g < Programs(c)
      ensures issued(g) == if first <= g < first + Splits(c) then SplitTerms(c, i, j)(g - first) else 0.0
    {
      GridIssues(c, g, i, j);
    }
    SumWindow(issued, 0, first, first + Splits(c), Programs(c));
    SumShift(issued, SplitTerms(c, i, j), 0, Splits(c), first);
  }

  lemma FinalCell(c: Config, bias: (int, int) -> real, run: seq<A.State>, order: seq<(int, int, int)>, i: int, j: int)
    requires Valid(c) && AddsBias(c, bias)
    requires A.IsRun(Plan(c), run, order) && A.Complete(Plan(c), run[|run| - 1])
    requires 0 <= i < c.m && 0 <= j < c.n
    ensures run[|run| - 1].mem(i, j) == MatMul(c, i, j) + if c.k > 0 then bias(i, j) else 0.0
  {
    A.CompleteRunSums(Plan(c), run, order, i, j);
    hide Sum, Programs, Splits;
    GridSum(c, i, j);
    ContributionsSum(c, bias, i, j);
  }

  /**
   * Any grid tiling and any order of the programs' atomic adds: the output is x . y plus one
   * bias; an empty reduction (k = 0) launches no program and so loses a non-zero bias.
   */
  lemma OutputIsMatMulPlusBiasIff(c: Config, bias: (int, int) -> real, run: seq<A.State>, order: seq<(int, int, int)>, i: int, j: int)
    requires Valid(c) && AddsBias(c, bias)
    requires A.IsRun(Plan(c), run, order) && A.Complete(Plan(c), run[|run| - 1])
    requires 0 <= i < c.m && 0 <= j < c.n
    ensures run[|run| - 1].mem(i, j) == MatMul(c, i, j) + bias(i, j) <==> c.k > 0 || bias(i, j) == 0.0
  {
    FinalCell(c, bias, run, order, i, j);
  }

  /** The result at row i without the bias it was given. */
  function Unbiased(c: Config, mem: (int, int) -> real, bias: (int, int) -> real, i: int): int -> real {
    j => mem(i, j) - if c.k > 0 then bias(i, j) else 0.0
  }

  /** As a linear map, the result first applies y and then x. */
  lemma OutputAppliesFactors(c: Config, bias: (int, int) -> real, run: seq<A.State>, order: seq<(int, int, int)>, i: int, z: int -> real)
    requires Valid(c) && AddsBias(c, bias)
    requires A.IsRun(Plan(c), run, order) && A.Complete(Plan(c), run[|run| - 1])
    requires 0 <= i < c.m
    ensures Sum(Times(Unbiased(c, run[|run| - 1].mem, bias, i), z), 0, c.n)
         == Sum(Times(RowOf(c.x, i), MatrixVector(c.y, z, c.n)), 0, c.k)
  {
    hide Sum, Valid, AddsBias, Plan, A.Complete;
    var result := Unbiased(c, run[|run| - 1].mem, bias, i);
    forall j | 0 <= j < c.n
      ensures result(j) == Sum(Times(RowOf(c.x, i), ColumnOf(c.y, j)), 0, c.k)
    {
      FinalCell(c, bias, run, order, i, j);
      SumEq(Product(c, i, j), Times(RowOf(c.x, i), ColumnOf(c.y, j)), 0, c.k);
    }
    SumAssociates(RowOf(c.x, i), c.y, z, result, MatrixVector(c.y, z, c.n), 0, c.k, 0, c.n);
  }

  lemma IssuedInside(c: Config, g: int, i: int, j: int)
    requires Valid(c) && IssuesNumbered(c, g, i, j)
    ensures 0 <= i < c.m && 0 <= j < c.n
  {
    var columns, splits := NumTiles(0, c.n, c.blockN), Splits(c);
    OneProgramPerSplit(c, g / splits / columns, g / splits % columns, g % splits, i, j);
  }

  /** Some order of the adds completes. */
  lemma SomeRunCompletes(c: Config) returns (run: seq<A.State>, order: seq<(int, int, int)>)
    requires Valid(c)
    ensures A.IsRun(Plan(c), run, order) && A.Complete(Plan(c), run[|run| - 1])
  {
    var programs := Plan(c).programs;
    var all := set i: int, j: int, g: int | 0 <= i < c.m && 0 <= j < c.n && 0 <= g < programs :: (i, j, g);
    forall i, j, g | 0 <= g < programs && Plan(c).issued(i, j, g)
      ensures (i, j, g) in all
    {
      IssuedInside(c, g, i, j);
    }
    run, order := A.CompleteRunExists(Plan(c), all);
  }
}
