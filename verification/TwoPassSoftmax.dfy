// softmax_two_pass of examples/softmax.py: a running-maximum loop without a guard against rows
// that start hidden.
module TwoPassSoftmax {
  import opened Sums
  import opened OnlineSoftmax

  /** A row of any scores, infinities and NaN included. */
  function Scores(x: seq<Ext>): int -> Ext {
    n => if 0 <= n < |x| then x[n] else NegInf
  }

  /** The textbook normaliser of a row. */
  function Total(e: real -> real, x: seq<Ext>): real {
    Numerator(e, Scores(x), One(), |x|)
  }

  function FirstTile(x: seq<Ext>, blockN: nat): seq<int> {
    Range(0, if blockN < |x| then blockN else |x|)
  }

  /** The first tile has an entry that is not minus infinity. */
  ghost predicate StartsVisible(x: seq<Ext>, blockN: nat) {
    !AllHidden(Scores(x), FirstTile(x, blockN))
  }

  /** Maximum and normaliser after the first `seen` > 0 entries; NaN never goes away again. */
  ghost predicate Statistics(e: real -> real, x: seq<Ext>, blockN: nat, seen: int, mi: Ext, di: Ext) {
    && mi == MaxOf(Scores(x), Range(0, seen))
    && di == if mi.Fin? && StartsVisible(x, blockN) then Fin(Mass(e, Scores(x), One(), Range(0, seen), mi.v)) else NaN
  }

  /** The exponential of inf - inf spoils the tile's sum. */
  lemma OverflowInTile(e: real -> real, values: seq<Ext>, j: int)
    requires 0 <= j < |values| && values[j] == PosInf
    ensures SumTile(TileExp(e, values, PosInf)) == NaN
  {
    var p := TileExp(e, values, PosInf);
    assert p[j] == NaN;
    NaNInTile(p, seq(|p|, _ => 0.0), j);
  }

  lemma NothingRead(s: int -> Ext)
    ensures MaxOf(s, Range(0, 0)) == NegInf
  {
  }

  /** While only minus infinity has been read, the maximum is minus infinity. */
  lemma HiddenPrefix(x: seq<Ext>, blockN: nat, seen: int)
    requires 0 <= seen <= |x| && blockN > 0
    ensures var first := if blockN < |x| then blockN else |x|;
            && (seen >= first && MaxOf(Scores(x), Range(0, seen)).NegInf? ==> !StartsVisible(x, blockN))
            && (seen == first && !StartsVisible(x, blockN) ==> MaxOf(Scores(x), Range(0, seen)).NegInf?)
  {
    var s, first := Scores(x), if blockN < |x| then blockN else |x|;
    MaxOfSpec(s, Range(0, seen));
    if seen >= first && AllHidden(s, Range(0, seen)) {
      forall i | 0 <= i < |Range(0, first)|
        ensures s(Range(0, first)[i]).NegInf?
      {
        assert Range(0, seen)[i] == i;
      }
    }
  }

  lemma TileScores(x: seq<Ext>, lo: int, hi: int)
    requires 0 <= lo < hi <= |x|
    ensures forall j :: 0 <= j < hi - lo ==> x[lo..hi][j] == Scores(x)(Range(lo, hi)[j])
  {
  }

  lemma FirstPassSum(e: real -> real, x: seq<Ext>, mi: Ext, di: Ext, lo: int, hi: int, next: real)
    requires IsExp(e) && 0 <= lo < hi <= |x|
    requires mi == MaxOf(Scores(x), Range(0, lo)) && di.Fin? && Fin(next) == MaxOf(Scores(x), Range(0, hi))
    requires mi.Fin? ==> di == Fin(Mass(e, Scores(x), One(), Range(0, lo), mi.v))
    ensures Add(Mul(di, Exp(e, Sub(mi, Fin(next)))), SumTile(TileExp(e, x[lo..hi], Fin(next))))
         == Fin(Mass(e, Scores(x), One(), Range(0, hi), next))
  {
    hide Mass, Max, AMax, MaxOf, SumTile, TileExp, Exp, Sub, Mul, Add, IsExp, Proper, AllHidden, HasNaN;
    var s := Scores(x);
    TileScores(x, lo, hi);
    assert Range(0, lo) + Range(lo, hi) == Range(0, hi);
    MaxOfSpec(s, Range(0, hi));
    ProperConcat(s, Range(0, lo), Range(lo, hi));
    TileSum(e, s, Range(0, lo), Range(lo, hi), mi, di, x[lo..hi], next);
  }

  lemma NextMaximum(x: seq<Ext>, mi: Ext, lo: int, hi: int)
    requires 0 <= lo < hi <= |x|
    requires mi == MaxOf(Scores(x), Range(0, lo))
    ensures Max(mi, AMax(x[lo..hi])) == MaxOf(Scores(x), Range(0, hi))
  {
    hide AMax, MaxOf, Max;
    TileScores(x, lo, hi);
    AMaxIsMaxOf(Scores(x), Range(lo, hi), x[lo..hi]);
    MaxOfConcat(Scores(x), Range(0, lo), Range(lo, hi));
    assert Range(0, lo) + Range(lo, hi) == Range(0, hi);
  }

  /** A maximum that is not finite leaves no normaliser. */
  lemma ImproperSum(e: real -> real, mi: Ext, di: Ext, values: seq<Ext>)
    requires !Max(mi, AMax(values)).Fin? && (mi.PosInf? ==> di == NaN)
    ensures var next := Max(mi, AMax(values));
            Add(Mul(di, Exp(e, Sub(mi, next))), SumTile(TileExp(e, values, next))) == NaN
  {
    hide AMax, SumTile, TileExp;
    var next := Max(mi, AMax(values));
    if next.PosInf? && !mi.PosInf? {
      AMaxIsAttained(values);
      var j :| 0 <= j < |values| && values[j] == PosInf;
      OverflowInTile(e, values, j);
    }
  }

  lemma NaNSum(e: real -> real, alpha: Ext, tile: Ext)
    ensures Add(Mul(NaN, alpha), tile) == NaN
  {
  }

  /** One iteration, from the initial values or from the statistics of a prefix that holds the first tile. */
  lemma FirstPassStep(e: real -> real, x: seq<Ext>, blockN: nat, mi: Ext, di: Ext, lo: int, hi: int)
    requires IsExp(e) && blockN > 0 && 0 <= lo < hi <= |x|
    requires lo == 0 ==> mi == NegInf && di == Fin(0.0) && hi == if blockN < |x| then blockN else |x|
    requires lo > 0 ==> Statistics(e, x, blockN, lo, mi, di) && lo >= if blockN < |x| then blockN else |x|
    ensures var next := Max(mi, AMax(x[lo..hi]));
            Statistics(e, x, blockN, hi, next, Add(Mul(di, Exp(e, Sub(mi, next))), SumTile(TileExp(e, x[lo..hi], next))))
  {
    hide Mass, AMax, MaxOf, SumTile, TileExp, IsExp, StartsVisible, Scores, Add, Mul, Exp, Sub;
    var s, next := Scores(x), Max(mi, AMax(x[lo..hi]));
    NothingRead(s);
    NextMaximum(x, mi, lo, hi);
    HiddenPrefix(x, blockN, lo);
    HiddenPrefix(x, blockN, hi);
    if !next.Fin? {
      ImproperSum(e, mi, di, x[lo..hi]);
    } else if di.Fin? {
      FirstPassSum(e, x, mi, di, lo, hi, next.v);
    } else {
      NaNSum(e, Exp(e, Sub(mi, next)), SumTile(TileExp(e, x[lo..hi], next)));
    }
  }

  /** First pass: the row maximum and the sum of exponentials relative to it; di starts at 0.0. */
  method FirstPass(e: real -> real, x: seq<Ext>, blockN: nat) returns (mi: Ext, di: Ext)
    requires IsExp(e) && blockN > 0
    ensures |x| > 0 ==> Statistics(e, x, blockN, |x|, mi, di)
  {
    hide *;
    mi, di := NegInf, Fin(0.0);
    var lo := 0;
    while lo < |x|
      invariant 0 <= lo <= |x| && (lo > 0 ==> lo >= if blockN < |x| then blockN else |x|)
      invariant lo == 0 ==> mi == NegInf && di == Fin(0.0)
      invariant lo > 0 ==> Statistics(e, x, blockN, lo, mi, di)
    {
      var hi := if lo + blockN < |x| then lo + blockN else |x|;
      var values := x[lo..hi];
      FirstPassStep(e, x, blockN, mi, di, lo, hi);
      var miNext := Max(mi, AMax(values));
      di := Add(Mul(di, Exp(e, Sub(mi, miNext))), SumTile(TileExp(e, values, miNext)));
      mi := miNext;
      lo := hi;
    }
  }

  /** An entry is NaN or plus infinity, or all are minus infinity (0 / 0). */
  ghost predicate SoftmaxIsNaN(x: seq<Ext>) {
    SomeNaN(Scores(x), |x|) || SomePosInf(Scores(x), |x|) || !SomeVisible(Scores(x), |x|)
  }

  /**
   * The softmax of a row: NaN throughout or exp(x[n]) over the sum of all exponentials, which is
   * 0 where x[n] is minus infinity.
   */
  ghost predicate IsSoftmaxEntry(e: real -> real, x: seq<Ext>, n: int, y: Ext)
    requires 0 <= n < |x|
  {
    if SoftmaxIsNaN(x) then y == NaN
    else Total(e, x) > 0.0 && y == Fin(Weight(e, x[n], 0.0) / Total(e, x))
  }

  lemma ImproperEntry(x: seq<Ext>, n: int)
    requires 0 <= n < |x|
    ensures x[n].NaN? ==> SomeNaN(Scores(x), |x|)
    ensures x[n].PosInf? ==> SomePosInf(Scores(x), |x|)
  {
    assert Scores(x)(n) == x[n];
  }

  lemma ShiftedQuotient(e: real -> real, x: Ext, m: real, d: real, total: real)
    requires IsExp(e) && d >= 1.0 && IsProper(x) && total == d * e(m)
    ensures total > 0.0
    ensures Div(Exp(e, Sub(x, Fin(m))), Fin(d)) == Fin(Weight(e, x, 0.0) / total)
  {
    PositiveProduct(d, e(m));
    if x.Fin? {
      ExpLaw(e, x.v - m, m);
      assert x.v - m + m == x.v - 0.0;
      CancelFactor(e(x.v - m), d, e(m));
    }
  }

  lemma TotalFromMass(e: real -> real, x: seq<Ext>, m: real)
    requires IsExp(e)
    requires Fin(m) == MaxOf(Scores(x), Range(0, |x|))
    ensures Mass(e, Scores(x), One(), Range(0, |x|), m) >= 1.0
    ensures Total(e, x) == Mass(e, Scores(x), One(), Range(0, |x|), m) * e(m)
  {
    hide Mass, Numerator, IsExp, MaxOf, Covers, AllHidden, Proper, HasNaN;
    var s, keys := Scores(x), Range(0, |x|);
    MaxOfSpec(s, keys);
    var top :| 0 <= top < |keys| && s(keys[top]) == Fin(m);
    MassAtLeastOne(e, s, keys, m, top);
    RangeCovers(s, |x|);
    MassUnshifted(e, s, One(), keys, |x|, m);
  }

  /** An entry computed from the statistics of the whole row. */
  lemma EntryIsSoftmaxIff(e: real -> real, x: seq<Ext>, blockN: nat, mi: Ext, di: Ext, n: int)
    requires IsExp(e) && 0 <= n < |x| && Statistics(e, x, blockN, |x|, mi, di)
    ensures IsSoftmaxEntry(e, x, n, Div(Exp(e, Sub(x[n], mi)), di))
            <==> StartsVisible(x, blockN) || SoftmaxIsNaN(x)
    ensures !StartsVisible(x, blockN) ==> Div(Exp(e, Sub(x[n], mi)), di) == NaN
  {
    hide Mass, MaxOf, IsExp, StartsVisible, SomeNaN, SomeVisible, Covers, Numerator, Total, Proper, HasNaN, SomePosInf;
    var s := Scores(x);
    RangeCovers(s, |x|);
    MaxIsVisible(s, Range(0, |x|), |x|);
    if mi.Fin? && StartsVisible(x, blockN) {
      TotalFromMass(e, x, mi.v);
      ImproperEntry(x, n);
      ShiftedQuotient(e, x[n], mi.v, di.v, Total(e, x));
    }
  }

  /**
   * Both passes over one row: the result is its softmax exactly when the first tile has an entry
   * above minus infinity, unless the softmax is NaN anyway. Otherwise every entry is NaN.
   */
  method TwoPass(e: real -> real, x: seq<Ext>, blockN: nat) returns (out: array<Ext>)
    requires IsExp(e) && blockN > 0
    ensures out.Length == |x|
    ensures (forall n :: 0 <= n < |x| ==> IsSoftmaxEntry(e, x, n, out[n]))
            <==> |x| == 0 || StartsVisible(x, blockN) || SoftmaxIsNaN(x)
    ensures |x| > 0 && !StartsVisible(x, blockN) ==> forall n :: 0 <= n < |x| ==> out[n] == NaN
  {
    hide *;
    out := new Ext[|x|];
    var mi, di := FirstPass(e, x, blockN);
    var lo := 0;
    while lo < |x|
      invariant 0 <= lo <= |x|
      invariant forall n :: 0 <= n < lo ==> out[n] == Div(Exp(e, Sub(x[n], mi)), di)
    {
      var hi := if lo + blockN < |x| then lo + blockN else |x|;
      forall n | lo <= n < hi {
        out[n] := Div(Exp(e, Sub(x[n], mi)), di);
      }
      lo := hi;
    }
    forall n | 0 <= n < |x|
      ensures IsSoftmaxEntry(e, x, n, out[n])
              <==> StartsVisible(x, blockN) || SoftmaxIsNaN(x)
      ensures !StartsVisible(x, blockN) ==> out[n] == NaN
    {
      EntryIsSoftmaxIff(e, x, blockN, mi, di, n);
    }
    assert |x| > 0 ==> (IsSoftmaxEntry(e, x, 0, out[0])
                        <==> StartsVisible(x, blockN) || SoftmaxIsNaN(x));
  }
}
