// The dense and causal forward kernels of examples/attention.py: running-maximum loops without a
// guard against hidden rows.
module Attention {
  import opened Sums
  import opened OnlineSoftmax

  datatype Problem = Problem(
    batch: nat, rows: nat, keys: nat, dim: nat, causal: bool, qkScale: real,
    q: (int, int, int) -> real, k: (int, int, int) -> real, v: (int, int, int) -> real)

  function QkTerms(p: Problem, b: int, m: int, n: int): int -> real {
    d => p.q(b, m, d) * p.qkScale * p.k(b, n, d)
  }

  /** (q * qk_scale) . k, at minus infinity above the diagonal of a causal problem. */
  function Score(p: Problem, b: int, m: int, n: int): Ext {
    if p.causal && m < n then NegInf
    else Fin(Sum(QkTerms(p, b, m, n), 0, p.dim))
  }

  function RowScores(p: Problem, b: int, m: int): int -> Ext {
    n => Score(p, b, m, n)
  }

  function BatchValues(p: Problem, b: int): (int, int) -> real {
    (n, d) => p.v(b, n, d)
  }

  function ScoreTile(p: Problem, b: int, m: int, lo: int, hi: int): (qk: seq<Ext>)
    requires lo < hi
    ensures |qk| == hi - lo
  {
    seq(hi - lo, j => Score(p, b, m, lo + j))
  }

  function ValueTile(p: Problem, b: int, lo: int, hi: int): (v: seq<seq<real>>)
    requires lo < hi
    ensures |v| == p.dim && forall d :: 0 <= d < |v| ==> |v[d]| == hi - lo
  {
    seq(p.dim, d => seq(hi - lo, j => p.v(b, lo + j, d)))
  }

  ghost predicate RowRepresents(p: Problem, e: real -> real, b: int, m: int, seen: int, row: Row) {
    Represents(e, RowScores(p, b, m), BatchValues(p, b), Range(0, seen), p.dim, row)
  }

  lemma RowOf(p: Problem, e: real -> real, b: int, m: int, seen: int, row: Row)
    ensures RowRepresents(p, e, b, m, seen, row)
        <==> Represents(e, RowScores(p, b, m), BatchValues(p, b), Range(0, seen), p.dim, row)
    ensures RowRepresents(p, e, b, m, seen, row) ==> |row.acc| == p.dim
  {
  }

  lemma TileHoldsScores(p: Problem, b: int, m: int, lo: int, hi: int)
    requires 0 <= lo < hi
    ensures TileOf(RowScores(p, b, m), BatchValues(p, b), Range(lo, hi), p.dim, ScoreTile(p, b, m, lo, hi), ValueTile(p, b, lo, hi))
  {
    hide Score;
  }

  /** Key 0 is among the keys seen, and every row sees it. */
  lemma KeyZeroIsVisible(p: Problem, b: int, m: int, hi: int)
    requires 0 <= m && 0 < hi
    ensures !AllHidden(RowScores(p, b, m), Range(0, hi))
  {
    hide Sum;
    assert Range(0, hi)[0] == 0;
    assert RowScores(p, b, m)(Range(0, hi)[0]).Fin?;
  }

  lemma KeyZero(p: Problem, b: int, m: int)
    requires 0 <= m
    ensures RowScores(p, b, m)(0).Fin?
  {
    hide Sum;
  }

  lemma NextRange(lo: int, hi: int)
    requires 0 <= lo < hi
    ensures Range(lo, hi) != [] && Range(0, lo) + Range(lo, hi) == Range(0, hi)
  {
  }

  /** Key 0 is visible to every row, so the new maximum is finite from the first tile on. */
  lemma RowStepExtends(p: Problem, e: real -> real, b: int, m: int, row: Row, lo: int, hi: int)
    requires IsExp(e)
    requires 0 <= m && 0 <= lo < hi
    requires RowRepresents(p, e, b, m, lo, row)
    ensures RowRepresents(p, e, b, m, hi, PlainStep(e, row, ScoreTile(p, b, m, lo, hi), ValueTile(p, b, lo, hi)))
  {
    hide *;
    NextRange(lo, hi);
    TileHoldsScores(p, b, m, lo, hi);
    KeyZeroIsVisible(p, b, m, hi);
    RowOf(p, e, b, m, lo, row);
    PlainStepExtendsIff(e, RowScores(p, b, m), BatchValues(p, b), Range(0, lo), Range(lo, hi), p.dim,
                        row, ScoreTile(p, b, m, lo, hi), ValueTile(p, b, lo, hi));
    RowOf(p, e, b, m, hi, PlainStep(e, row, ScoreTile(p, b, m, lo, hi), ValueTile(p, b, lo, hi)));
  }

  lemma ScoresAreProper(p: Problem, b: int, m: int)
    ensures !SomeNaN(RowScores(p, b, m), p.keys) && !SomePosInf(RowScores(p, b, m), p.keys)
  {
    hide Sum;
  }

  /** The key loop of one query row. */
  method RowLoop(p: Problem, e: real -> real, b: int, m: int, blockN: nat) returns (row: Row)
    requires IsExp(e) && 0 <= m && blockN > 0
    ensures RowRepresents(p, e, b, m, p.keys, row)
  {
    row := InitRow(p.dim);
    var lo := 0;
    while lo < p.keys
      invariant 0 <= lo <= p.keys
      invariant RowRepresents(p, e, b, m, lo, row)
    {
      var hi := if lo + blockN < p.keys then lo + blockN else p.keys;
      RowStepExtends(p, e, b, m, row, lo, hi);
      row := PlainStep(e, row, ScoreTile(p, b, m, lo, hi), ValueTile(p, b, lo, hi));
      lo := hi;
    }
  }

  /** Whole-row softmax and base-2 log-sum-exp; with no key at all, zeros and minus infinity. */
  ghost predicate IsSoftmax(p: Problem, e: real -> real, b: int, m: int, out: seq<Ext>, lse: Ext) {
    var s, v := RowScores(p, b, m), BatchValues(p, b);
    var total := Numerator(e, s, One(), p.keys);
    && |out| == p.dim
    && if p.keys > 0 then
         && total > 0.0
         && (forall d :: 0 <= d < p.dim ==> out[d] == Fin(Numerator(e, s, Column(v, d), p.keys) / total))
         && lse.Fin? && e(lse.v) == total
       else
         && (forall d :: 0 <= d < p.dim ==> out[d] == Fin(0.0))
         && lse == NegInf
  }

  /** The problem without a mask whose keys are those up to the diagonal. */
  function UpTo(p: Problem, m: int): Problem
    requires 0 <= m
  {
    p.(causal := false, keys := if m < p.keys then m + 1 else p.keys)
  }

  lemma CausalScores(p: Problem, b: int, m: int, n: int)
    requires p.causal && 0 <= m && 0 <= n < p.keys
    ensures RowScores(p, b, m)(n) == if n < UpTo(p, m).keys then RowScores(UpTo(p, m), b, m)(n) else NegInf
  {
    hide Sum;
    SumEq(QkTerms(p, b, m, n), QkTerms(UpTo(p, m), b, m, n), 0, p.dim);
  }

  lemma CausalNumerator(p: Problem, e: real -> real, b: int, m: int, x: int -> real, y: int -> real)
    requires p.causal && 0 <= m
    requires forall n :: x(n) == y(n)
    ensures Numerator(e, RowScores(p, b, m), x, p.keys) == Numerator(e, RowScores(UpTo(p, m), b, m), y, UpTo(p, m).keys)
  {
    hide RowScores, Numerator;
    forall n | 0 <= n < p.keys
      ensures RowScores(p, b, m)(n) == if n < UpTo(p, m).keys then RowScores(UpTo(p, m), b, m)(n) else NegInf
    {
      CausalScores(p, b, m, n);
    }
    NumeratorOfVisible(e, RowScores(p, b, m), x, UpTo(p, m).keys, p.keys);
    NumeratorEq(e, RowScores(p, b, m), x, RowScores(UpTo(p, m), b, m), y, UpTo(p, m).keys);
  }

  /** Causality: a row's result is that of the unmasked problem over the keys up to its own position. */
  lemma CausalIsPrefix(p: Problem, e: real -> real, b: int, m: int, out: seq<Ext>, lse: Ext)
    requires p.causal && 0 <= m
    ensures m < p.keys ==>
              (IsSoftmax(p, e, b, m, out, lse) <==> IsSoftmax(p.(causal := false, keys := m + 1), e, b, m, out, lse))
    ensures m >= p.keys ==>
              (IsSoftmax(p, e, b, m, out, lse) <==> IsSoftmax(p.(causal := false), e, b, m, out, lse))
  {
    hide RowScores, Numerator;
    CausalNumerator(p, e, b, m, One(), One());
    forall d
      ensures Numerator(e, RowScores(p, b, m), Column(BatchValues(p, b), d), p.keys)
           == Numerator(e, RowScores(UpTo(p, m), b, m), Column(BatchValues(UpTo(p, m), b), d), UpTo(p, m).keys)
    {
      CausalNumerator(p, e, b, m, Column(BatchValues(p, b), d), Column(BatchValues(UpTo(p, m), b), d));
    }
    assert m >= p.keys ==> UpTo(p, m) == p.(causal := false);
  }

  lemma FinishedRowIsSoftmax(p: Problem, e: real -> real, log: real -> real, b: int, m: int, row: Row)
    requires IsExp(e) && IsLog(e, log) && 0 <= m
    requires RowRepresents(p, e, b, m, p.keys, row)
    ensures IsSoftmax(p, e, b, m, Normalised(row), Add(row.m, Log(log, row.l)))
  {
    var s, keys := RowScores(p, b, m), Range(0, p.keys);
    RangeCovers(s, p.keys);
    ScoresAreProper(p, b, m);
    RowIsSoftmax(e, log, s, BatchValues(p, b), keys, p.keys, p.dim, row);
    if p.keys > 0 {
      assert s(0).Fin?;
    }
  }

  ghost predicate RowDone(p: Problem, e: real -> real, out: array3<Ext>, lse: array2<Ext>, b: int, m: int)
    requires out.Length0 == lse.Length0 == p.batch && out.Length1 == lse.Length1 == p.rows && out.Length2 == p.dim
    requires 0 <= b < p.batch && 0 <= m < p.rows
    reads out, lse
  {
    IsSoftmax(p, e, b, m, seq(p.dim, d requires 0 <= d < p.dim reads out => out[b, m, d]), lse[b, m])
  }

  /** The epilogue of one row stores its quotients and its log-sum-exp, and nothing else. */
  method StoreRow(p: Problem, e: real -> real, log: real -> real, b: nat, m: nat, row: Row, out: array3<Ext>, lse: array2<Ext>)
    requires IsExp(e) && IsLog(e, log) && b < p.batch && m < p.rows
    requires RowRepresents(p, e, b, m, p.keys, row)
    requires out.Length0 == lse.Length0 == p.batch && out.Length1 == lse.Length1 == p.rows && out.Length2 == p.dim
    modifies out, lse
    ensures RowDone(p, e, out, lse, b, m)
    ensures forall b', m', d :: 0 <= b' < p.batch && 0 <= m' < p.rows && 0 <= d < p.dim && (b' != b || m' != m)
                                ==> out[b', m', d] == old(out[b', m', d])
    ensures forall b', m' :: 0 <= b' < p.batch && 0 <= m' < p.rows && (b' != b || m' != m) ==> lse[b', m'] == old(lse[b', m'])
  {
    hide IsSoftmax, IsExp, IsLog;
    forall d | 0 <= d < p.dim {
      out[b, m, d] := Div(row.acc[d], row.l);
    }
    lse[b, m] := Add(row.m, Log(log, row.l));
    FinishedRowIsSoftmax(p, e, log, b, m, row);
    assert seq(p.dim, d requires 0 <= d < p.dim reads out => out[b, m, d]) == Normalised(row);
  }

  /**
   * Both kernels: each row of the grid runs the key loop and stores its own row. Rows are
   * taken in the given order, any order that reaches every row.
   */
  method Kernel(p: Problem, e: real -> real, log: real -> real, blockN: nat, order: seq<(nat, nat)>)
    returns (out: array3<Ext>, lse: array2<Ext>)
    requires IsExp(e) && IsLog(e, log) && blockN > 0
    requires forall i :: 0 <= i < |order| ==> order[i].0 < p.batch && order[i].1 < p.rows
    requires forall b: nat, m: nat :: b < p.batch && m < p.rows ==> (b, m) in order
    ensures out.Length0 == lse.Length0 == p.batch && out.Length1 == lse.Length1 == p.rows && out.Length2 == p.dim
    ensures forall b, m :: 0 <= b < p.batch && 0 <= m < p.rows ==> RowDone(p, e, out, lse, b, m)
  {
    hide IsSoftmax, RowRepresents, IsExp, IsLog;
    out := new Ext[p.batch, p.rows, p.dim];
    lse := new Ext[p.batch, p.rows];
    var i := 0;
    while i < |order|
      invariant 0 <= i <= |order|
      invariant fresh(out) && fresh(lse)
      invariant forall b, m :: 0 <= b < p.batch && 0 <= m < p.rows && (b, m) in order[..i] ==> RowDone(p, e, out, lse, b, m)
    {
      var (b, m) := order[i];
      var row := RowLoop(p, e, b, m, blockN);
      label before:
      StoreRow(p, e, log, b, m, row, out, lse);
      forall b', m' | 0 <= b' < p.batch && 0 <= m' < p.rows && (b', m') in order[..i + 1]
        ensures RowDone(p, e, out, lse, b', m')
      {
        if b' != b || m' != m {
          assert order[..i + 1] == order[..i] + [order[i]];
          assert old@before(RowDone(p, e, out, lse, b', m'));
          assert seq(p.dim, d requires 0 <= d < p.dim reads out => out[b', m', d])
              == old@before(seq(p.dim, d requires 0 <= d < p.dim reads out => out[b', m', d]));
        }
      }
      i := i + 1;
    }
    assert order[..i] == order;
  }
}
