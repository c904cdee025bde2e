// examples/segment_reduction.py: a tile-wise associative scan whose run totals are added
// atomically, against the scatter-add reference.
module SegmentReduction {
  import opened Sums
  import opened Tiling
  import A = AtomicAdds

  datatype Item = Item(value: real, index: int)

  /** combine_fn_helion. */
  function Combine(left: Item, right: Item): Item {
    Item(if left.index == right.index then left.value + right.value else right.value, right.index)
  }

  /** The combine function is associative exactly on these triples. */
  lemma CombineAssociativeIff(a: Item, b: Item, c: Item)
    ensures Combine(Combine(a, b), c) == Combine(a, Combine(b, c))
            <==> b.index == c.index || a.index != c.index || a.value == 0.0
  {
  }

  datatype Input = Input(indices: seq<int>, data: (int, int) -> real, block: nat, other: int)

  /** Equal indices of the range stand next to each other. */
  ghost predicate Contiguous(x: Input, lo: int, hi: int)
    requires 0 <= lo && hi <= |x.indices|
  {
    forall i, j, k :: lo <= i < j < k < hi && x.indices[i] == x.indices[k] ==> x.indices[j] == x.indices[i]
  }

  ghost predicate RunsInTile(x: Input, t: nat)
    requires x.block > 0
  {
    Contiguous(x, t * x.block, TileEnd(0, |x.indices|, x.block, t))
  }

  /**
   * Each tile holds its runs contiguously, as it does for sorted indices. `other` is what the
   * masked-off load of the index after the last one yields.
   */
  ghost predicate Valid(x: Input) {
    x.block > 0 && forall t: nat :: RunsInTile(x, t)
  }

  ghost predicate Sorted(x: Input) {
    forall i, j :: 0 <= i < j < |x.indices| ==> x.indices[i] <= x.indices[j]
  }

  lemma TileEndInside(x: Input)
    ensures forall t :: TileEnd(0, |x.indices|, x.block, t) <= |x.indices|
  {
  }

  lemma SortedIsContiguous(x: Input, lo: int, hi: int)
    requires Sorted(x) && 0 <= lo && hi <= |x.indices|
    ensures Contiguous(x, lo, hi)
  {
    forall i, j, k | lo <= i < j < k < hi && x.indices[i] == x.indices[k]
      ensures x.indices[j] == x.indices[i]
    {
      assert x.indices[i] <= x.indices[j] <= x.indices[k];
    }
  }

  /** Sorted indices are valid for every block size. */
  lemma SortedIsValid(x: Input)
    requires x.block > 0 && Sorted(x)
    ensures Valid(x)
  {
    hide Contiguous, Sorted, TileEnd;
    TileEndInside(x);
    forall t: nat
      ensures RunsInTile(x, t)
    {
      MulMonotone(0, t, x.block);
      SortedIsContiguous(x, t * x.block, TileEnd(0, |x.indices|, x.block, t));
    }
  }

  /** A bracketing of the scan over neighbouring elements. */
  datatype Tree = Leaf(at: int) | Node(left: Tree, right: Tree)

  function Lo(t: Tree): int {
    match t
    case Leaf(i) => i
    case Node(l, _) => Lo(l)
  }

  function Hi(t: Tree): int {
    match t
    case Leaf(i) => i + 1
    case Node(_, r) => Hi(r)
  }

  predicate Adjacent(t: Tree) {
    match t
    case Leaf(_) => true
    case Node(l, r) => Adjacent(l) && Adjacent(r) && Hi(l) == Lo(r)
  }

  function IndexAt(x: Input, i: int): int {
    if 0 <= i < |x.indices| then x.indices[i] else 0
  }

  function Eval(x: Input, f: int, t: Tree): Item {
    match t
    case Leaf(i) => Item(x.data(i, f), IndexAt(x, i))
    case Node(l, r) => Combine(Eval(x, f, l), Eval(x, f, r))
  }

  /** Every occurrence of the range's last index belongs to the run at its end. */
  ghost predicate LastRun(x: Input, lo: int, hi: int)
    requires 0 <= lo && hi <= |x.indices|
  {
    forall i, j :: lo <= i < j < hi && x.indices[i] == x.indices[hi - 1] ==> x.indices[j] == x.indices[hi - 1]
  }

  /** The data of node's elements, zero elsewhere. */
  function NodeTerms(x: Input, f: int, node: int): int -> real {
    i => if IndexAt(x, i) == node then x.data(i, f) else 0.0
  }

  lemma {:induction false} TreeSpans(t: Tree)
    requires Adjacent(t)
    ensures Lo(t) < Hi(t)
  {
    match t
    case Leaf(_) =>
    case Node(l, r) =>
      TreeSpans(l);
      TreeSpans(r);
  }

  lemma {:induction false} EvalIndex(x: Input, f: int, t: Tree)
    requires Adjacent(t)
    ensures Lo(t) < Hi(t) && Eval(x, f, t).index == IndexAt(x, Hi(t) - 1)
  {
    TreeSpans(t);
    match t
    case Leaf(_) =>
    case Node(_, r) => EvalIndex(x, f, r);
  }

  /** A node that starts after hi - 1 does not occur before it. */
  lemma NoEarlierRun(x: Input, f: int, node: int, lo: int, hi: int)
    requires 0 <= lo < hi <= |x.indices|
    requires forall i :: lo <= i < hi - 1 && x.indices[i] == node ==> x.indices[hi - 1] == node
    requires x.indices[hi - 1] != node
    ensures Sum(NodeTerms(x, f, node), lo, hi) == 0.0
  {
    forall i | lo <= i < hi
      ensures NodeTerms(x, f, node)(i) == 0.0
    {
      assert x.indices[i] != node;
      assert IndexAt(x, i) != node;
    }
    SumZero(NodeTerms(x, f, node), lo, hi);
  }

  /** Every bracketing of lo..hi gives the total of the run that ends at hi - 1. */
  lemma {:induction false} ScanIsRunTotal(x: Input, f: int, t: Tree)
    requires Adjacent(t)
    requires 0 <= Lo(t) && Hi(t) <= |x.indices| && LastRun(x, Lo(t), Hi(t))
    ensures Lo(t) < Hi(t)
    ensures var last := x.indices[Hi(t) - 1];
            Eval(x, f, t) == Item(Sum(NodeTerms(x, f, last), Lo(t), Hi(t)), last)
  {
    TreeSpans(t);
    var last := x.indices[Hi(t) - 1];
    var terms := NodeTerms(x, f, last);
    match t
    case Leaf(i) =>
      assert Sum(terms, i, i + 1) == Sum(terms, i, i) + terms(i);
    case Node(l, r) =>
      TreeSpans(l);
      TreeSpans(r);
      EvalIndex(x, f, l);
      ScanIsRunTotal(x, f, r);
      var mid := Hi(l);
      SumSplit(terms, Lo(t), mid, Hi(t));
      if x.indices[mid - 1] == last {
        ScanIsRunTotal(x, f, l);
      } else {
        NoEarlierRun(x, f, last, Lo(t), mid);
      }
  }

  ghost predicate Spans(t: Tree, lo: int, hi: int) {
    Adjacent(t) && Lo(t) == lo && Hi(t) == hi
  }

  /** The bracketing that takes one element after the other. */
  function Comb(lo: int, hi: int): Tree
    requires lo < hi
    decreases hi - lo
  {
    if hi == lo + 1 then Leaf(lo) else Node(Comb(lo, hi - 1), Leaf(hi - 1))
  }

  lemma {:induction false} CombSpans(lo: int, hi: int)
    requires lo < hi
    ensures Spans(Comb(lo, hi), lo, hi)
    decreases hi - lo
  {
    if hi > lo + 1 {
      CombSpans(lo, hi - 1);
    }
  }

  lemma {:induction false} ZeroData(x: Input, f: int, t: Tree)
    requires Adjacent(t) && forall i :: Lo(t) <= i < Hi(t) ==> x.data(i, f) == 0.0
    ensures Eval(x, f, t).value == 0.0
  {
    match t
    case Leaf(_) =>
    case Node(l, r) =>
      TreeSpans(l);
      TreeSpans(r);
      ZeroData(x, f, l);
      ZeroData(x, f, r);
  }

  ghost predicate SameScan(x: Input, data: (int, int) -> real, f: int, s: Tree, t: Tree) {
    Eval(x.(data := data), f, s) == Eval(x.(data := data), f, t)
  }

  /** Splitting behind another index hides an earlier occurrence; splitting right behind that occurrence keeps it. */
  lemma SplitsDisagree(x: Input, lo: int, i: int, j: int, hi: int)
    requires 0 <= lo <= i < j < hi <= |x.indices|
    requires x.indices[i] == x.indices[hi - 1] && x.indices[j] != x.indices[hi - 1]
    ensures var data := (k: int, f: int) => if k == i then 1.0 else 0.0;
            exists s, t :: Spans(s, lo, hi) && Spans(t, lo, hi) && !SameScan(x, data, 0, s, t)
  {
    var data := (k: int, f: int) => if k == i then 1.0 else 0.0;
    var y := x.(data := data);
    CombSpans(lo, j + 1);
    CombSpans(j + 1, hi);
    CombSpans(lo, i + 1);
    CombSpans(i + 1, hi);
    var s, t := Node(Comb(lo, j + 1), Comb(j + 1, hi)), Node(Comb(lo, i + 1), Comb(i + 1, hi));
    EvalIndex(y, 0, Comb(lo, j + 1));
    EvalIndex(y, 0, Comb(j + 1, hi));
    EvalIndex(y, 0, Comb(lo, i + 1));
    EvalIndex(y, 0, Comb(i + 1, hi));
    ZeroData(y, 0, Comb(j + 1, hi));
    ZeroData(y, 0, Comb(i + 1, hi));
    if lo < i {
      CombSpans(lo, i);
      ZeroData(y, 0, Comb(lo, i));
    }
    assert Eval(y, 0, Comb(lo, i + 1)).value == 1.0;
    assert Eval(y, 0, s).value == 0.0 && Eval(y, 0, t).value == 1.0;
    assert Spans(s, lo, hi) && Spans(t, lo, hi) && !SameScan(x, data, 0, s, t);
  }

  /** All bracketings of a range agree on all data exactly when its last index forms one run. */
  lemma BracketingsAgreeIff(x: Input, lo: int, hi: int)
    requires 0 <= lo < hi <= |x.indices|
    ensures LastRun(x, lo, hi)
            <==> forall data, f, s, t :: Spans(s, lo, hi) && Spans(t, lo, hi) ==> SameScan(x, data, f, s, t)
  {
    if LastRun(x, lo, hi) {
      forall data, f, s, t | Spans(s, lo, hi) && Spans(t, lo, hi)
        ensures SameScan(x, data, f, s, t)
      {
        ScanIsRunTotal(x.(data := data), f, s);
        ScanIsRunTotal(x.(data := data), f, t);
      }
    } else {
      var i, j :| lo <= i < j < hi && x.indices[i] == x.indices[hi - 1] && x.indices[j] != x.indices[hi - 1];
      SplitsDisagree(x, lo, i, j, hi);
    }
  }

  /** So the scan of a whole tile does not depend on its bracketing exactly when equal indices are contiguous. */
  lemma TileScanIsDefinedIff(x: Input, lo: int, hi: int)
    requires 0 <= lo <= hi <= |x.indices|
    ensures Contiguous(x, lo, hi)
            <==> forall end, data, f, s, t :: lo < end <= hi && Spans(s, lo, end) && Spans(t, lo, end)
                                              ==> SameScan(x, data, f, s, t)
  {
    if Contiguous(x, lo, hi) {
      forall end, data, f, s, t | lo < end <= hi && Spans(s, lo, end) && Spans(t, lo, end)
        ensures SameScan(x, data, f, s, t)
      {
        BracketingsAgreeIff(x, lo, end);
      }
    } else {
      var i, j, k :| lo <= i < j < k < hi && x.indices[i] == x.indices[k] && x.indices[j] != x.indices[i];
      SplitsDisagree(x, lo, i, j, k + 1);
    }
  }

  lemma RunOfPrefix(x: Input, lo: int, i: int, hi: int)
    requires 0 <= lo <= i < hi <= |x.indices| && Contiguous(x, lo, hi)
    ensures LastRun(x, lo, i + 1)
  {
  }

  /** The run that ends at an element of a tile. */
  lemma RunOfElement(x: Input, i: int)
    requires Valid(x) && 0 <= i < |x.indices|
    ensures 0 <= i / x.block * x.block <= i && LastRun(x, i / x.block * x.block, i + 1)
  {
    hide Contiguous;
    DivBounds(i, i, x.block);
    assert RunsInTile(x, i / x.block);
    var lo, hi := i / x.block * x.block, TileEnd(0, |x.indices|, x.block, i / x.block);
    RunOfPrefix(x, lo, i, hi);
  }

  // The kernel.

  /** The scan at element i covers its tile up to i, bracketed as trees(i). */
  ghost predicate ScanTrees(x: Input, trees: int -> Tree)
    requires x.block > 0
  {
    forall i :: 0 <= i < |x.indices| ==>
      Adjacent(trees(i)) && Lo(trees(i)) == i / x.block * x.block && Hi(trees(i)) == i + 1
  }

  function NextIndex(x: Input, i: int): int {
    if i < |x.indices| - 1 then IndexAt(x, i + 1) else x.other
  }

  /** mask: the element ends a run or its tile. */
  predicate Flushes(x: Input, i: int)
    requires x.block > 0
  {
    IndexAt(x, i) != NextIndex(x, i) || i % x.block == x.block - 1
  }

  function SegmentValue(x: Input, trees: int -> Tree, f: int, i: int): real
    requires x.block > 0
  {
    if Flushes(x, i) then Eval(x, f, trees(i)).value else 0.0
  }

  /** hl.atomic_add(output, [idxs, tile_f], segment_vals): element i adds to node indices[i]. */
  function Plan(x: Input, trees: int -> Tree, features: nat): A.Plan
    requires x.block > 0
  {
    A.Plan(|x.indices|,
           (node, f, i) => 0 <= f < features && IndexAt(x, i) == node,
           (node, f, i) => if x.block > 0 then SegmentValue(x, trees, f, i) else 0.0)
  }

  /** output.scatter_add_(0, indices, input_data). */
  function ScatterAdd(x: Input, f: int, node: int): real {
    Sum(NodeTerms(x, f, node), 0, |x.indices|)
  }

  /** What the kernel adds to one output cell in all. */
  function KernelSum(x: Input, trees: int -> Tree, features: nat, f: int, node: int): real
    requires x.block > 0
  {
    Sum(A.IssuedTerms(Plan(x, trees, features), node, f), 0, |x.indices|)
  }

  /** The total, up to i, of the run of element i inside its tile. */
  function RunTotal(x: Input, f: int, i: int): real
    requires x.block > 0 && 0 <= i < |x.indices|
  {
    Sum(NodeTerms(x, f, x.indices[i]), i / x.block * x.block, i + 1)
  }

  /** What has been read but not yet flushed for a node after the first i elements. */
  function Open(x: Input, f: int, node: int, i: int): real
    requires x.block > 0 && 0 <= i <= |x.indices|
  {
    if i == 0 || Flushes(x, i - 1) || x.indices[i - 1] != node then 0.0 else RunTotal(x, f, i - 1)
  }

  lemma NeighbourInTile(i: int, block: nat)
    requires i > 0 && block > 0
    ensures (i - 1) % block == block - 1 <==> i % block == 0
    ensures i % block != 0 ==> (i - 1) / block == i / block
  {
    DivBounds(i - 1, i, block);
    var q := (i - 1) / block;
    assert (i - 1) % block == i - 1 - q * block;
    if (i - 1) % block == block - 1 {
      DivUnique(i, q + 1, block);
      assert i % block == i - (q + 1) * block;
    } else {
      DivUnique(i, q, block);
      assert i % block == i - q * block;
    }
  }

  /** A run goes on from one element to the next exactly when the first is not flushed. */
  lemma RunTotalStep(x: Input, f: int, i: int)
    requires Valid(x) && 0 <= i < |x.indices|
    ensures RunTotal(x, f, i) == x.data(i, f) + Open(x, f, x.indices[i], i)
  {
    var node := x.indices[i];
    var terms, begin := NodeTerms(x, f, node), i / x.block * x.block;
    assert i % x.block == i - begin;
    SumSplit(terms, begin, i, i + 1);
    assert Sum(terms, i, i + 1) == Sum(terms, i, i) + terms(i);
    RunOfElement(x, i);
    if i > 0 {
      NeighbourInTile(i, x.block);
      if i % x.block != 0 && x.indices[i - 1] != node {
        NoEarlierRun(x, f, node, begin, i);
      }
    }
  }

  lemma {:induction false} FlushedPlusOpen(x: Input, trees: int -> Tree, features: nat, f: int, node: int, i: nat)
    requires Valid(x) && ScanTrees(x, trees)
    requires 0 <= f < features && i <= |x.indices|
    ensures Sum(NodeTerms(x, f, node), 0, i)
         == Sum(A.IssuedTerms(Plan(x, trees, features), node, f), 0, i) + Open(x, f, node, i)
  {
    if i > 0 {
      FlushedPlusOpen(x, trees, features, f, node, i - 1);
      var at := i - 1;
      RunOfElement(x, at);
      ScanIsRunTotal(x, f, trees(at));
      RunTotalStep(x, f, at);
      assert Eval(x, f, trees(at)).value == RunTotal(x, f, at);
      var added := A.IssuedTerms(Plan(x, trees, features), node, f)(at);
      assert added == if x.indices[at] == node && Flushes(x, at) then RunTotal(x, f, at) else 0.0;
      if x.indices[at] != node && at > 0 && x.indices[at - 1] == node {
        assert Flushes(x, at - 1);
      }
    }
  }

  /** The masked-off load must not look like a continuation of the last run. */
  predicate LastRunIsFlushed(x: Input)
    requires x.block > 0
  {
    |x.indices| == 0 || x.indices[|x.indices| - 1] != x.other || |x.indices| % x.block == 0
  }

  /** The exact shortfall of the kernel. */
  lemma KernelMissesOpenRun(x: Input, trees: int -> Tree, features: nat, f: int, node: int)
    requires Valid(x) && ScanTrees(x, trees) && 0 <= f < features
    ensures ScatterAdd(x, f, node) == KernelSum(x, trees, features, f, node) + Open(x, f, node, |x.indices|)
    ensures LastRunIsFlushed(x) ==> Open(x, f, node, |x.indices|) == 0.0
  {
    FlushedPlusOpen(x, trees, features, f, node, |x.indices|);
    if |x.indices| > 0 {
      NeighbourInTile(|x.indices|, x.block);
    }
  }

  lemma ValidForData(x: Input, data: (int, int) -> real)
    requires Valid(x)
    ensures Valid(x.(data := data))
  {
    var y := x.(data := data);
    forall t: nat
      ensures RunsInTile(y, t)
    {
      assert RunsInTile(x, t);
    }
  }

  lemma {:induction false} NonNegative(terms: int -> real, lo: int, hi: int)
    requires forall i :: terms(i) >= 0.0
    ensures Sum(terms, lo, hi) >= 0.0
    decreases hi - lo
  {
    if lo < hi {
      NonNegative(terms, lo, hi - 1);
    }
  }

  lemma OnesArePositive(x: Input, f: int, node: int, lo: int, last: int)
    requires 0 <= lo <= last < |x.indices| && x.indices[last] == node
    requires forall i :: x.data(i, f) == 1.0
    ensures Sum(NodeTerms(x, f, node), lo, last + 1) > 0.0
  {
    var terms := NodeTerms(x, f, node);
    assert IndexAt(x, last) == node;
    assert x.data(last, f) == 1.0;
    assert terms(last) == 1.0;
    NonNegative(terms, lo, last);
  }

  /** The kernel is the scatter-add on all data exactly when the last run is flushed. */
  lemma KernelIsScatterAddIff(x: Input, trees: int -> Tree, features: nat)
    requires Valid(x) && ScanTrees(x, trees) && features > 0
    ensures LastRunIsFlushed(x)
            <==> forall data, f, node :: 0 <= f < features ==>
                   KernelSum(x.(data := data), trees, features, f, node) == ScatterAdd(x.(data := data), f, node)
  {
    if LastRunIsFlushed(x) {
      forall data, f, node | 0 <= f < features
        ensures KernelSum(x.(data := data), trees, features, f, node) == ScatterAdd(x.(data := data), f, node)
      {
        ValidForData(x, data);
        KernelMissesOpenRun(x.(data := data), trees, features, f, node);
      }
    } else {
      var ones := x.(data := (i, f) => 1.0);
      ValidForData(x, ones.data);
      var last := |x.indices| - 1;
      var node := x.indices[last];
      KernelMissesOpenRun(ones, trees, features, 0, node);
      NeighbourInTile(|x.indices|, x.block);
      DivBounds(last, last, x.block);
      OnesArePositive(ones, 0, node, last / x.block * x.block, last);
      assert Open(ones, 0, node, |x.indices|) > 0.0;
      assert KernelSum(x.(data := ones.data), trees, features, 0, node) != ScatterAdd(x.(data := ones.data), 0, node);
    }
  }

  /** Whole runs: contiguous runs, any block, any bracketing, any order of the atomic adds. */
  lemma RunIsScatterAdd(x: Input, trees: int -> Tree, features: nat, run: seq<A.State>, order: seq<(int, int, int)>, f: int, node: int)
    requires Valid(x) && ScanTrees(x, trees) && LastRunIsFlushed(x)
    requires A.IsRun(Plan(x, trees, features), run, order) && A.Complete(Plan(x, trees, features), run[|run| - 1])
    requires 0 <= f < features
    ensures run[|run| - 1].mem(node, f) == ScatterAdd(x, f, node)
  {
    A.CompleteRunSums(Plan(x, trees, features), run, order, node, f);
    KernelMissesOpenRun(x, trees, features, f, node);
  }

  /** Some order of the adds completes. */
  lemma SomeRunCompletes(x: Input, trees: int -> Tree, features: nat) returns (run: seq<A.State>, order: seq<(int, int, int)>)
    requires Valid(x)
    ensures A.IsRun(Plan(x, trees, features), run, order) && A.Complete(Plan(x, trees, features), run[|run| - 1])
  {
    var all := set f: int, i: int | 0 <= f < features && 0 <= i < |x.indices| :: (x.indices[i], f, i);
    var plan := Plan(x, trees, features);
    forall node, f, i | 0 <= i < plan.programs && plan.issued(node, f, i)
      ensures (node, f, i) in all
    {
      assert node == IndexAt(x, i) == x.indices[i];
      assert (x.indices[i], f, i) in all;
    }
    run, order := A.CompleteRunExists(plan, all);
  }
}
