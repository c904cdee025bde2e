// The running-maximum softmax shared by the attention kernels: values with minus
// infinity, the per-row loop state, and what one tile does to it.
module OnlineSoftmax {
  import opened Sums

  /** A score, with the infinities and NaN of floating point. */
  datatype Ext = NegInf | Fin(v: real) | PosInf | NaN

  function Add(a: Ext, b: Ext): Ext {
    if a.NaN? || b.NaN? || (a.NegInf? && b.PosInf?) || (a.PosInf? && b.NegInf?) then NaN
    else if a.NegInf? || b.NegInf? then NegInf
    else if a.PosInf? || b.PosInf? then PosInf
    else Fin(a.v + b.v)
  }

  function Negate(a: Ext): Ext {
    match a
    case NegInf => PosInf
    case Fin(x) => Fin(-x)
    case PosInf => NegInf
    case NaN => NaN
  }

  function Sub(a: Ext, b: Ext): Ext {
    Add(a, Negate(b))
  }

  function Sign(a: Ext): int
    requires !a.NaN?
  {
    match a
    case NegInf => -1
    case Fin(x) => if x < 0.0 then -1 else if x == 0.0 then 0 else 1
    case PosInf => 1
  }

  function Mul(a: Ext, b: Ext): Ext {
    if a.NaN? || b.NaN? then NaN
    else if a.Fin? && b.Fin? then Fin(a.v * b.v)
    else if Sign(a) == 0 || Sign(b) == 0 then NaN
    else if Sign(a) == Sign(b) then PosInf
    else NegInf
  }

  /** A zero divisor counts as positive zero. */
  function Div(a: Ext, b: Ext): Ext {
    if a.NaN? || b.NaN? || (!a.Fin? && !b.Fin?) then NaN
    else if !b.Fin? then Fin(0.0)
    else if a.Fin? && b.v != 0.0 then Fin(a.v / b.v)
    else if Sign(a) == 0 then NaN
    else if (Sign(a) > 0) == (b.v >= 0.0) then PosInf
    else NegInf
  }

  /** `torch.maximum`, which propagates NaN. */
  function Max(a: Ext, b: Ext): Ext {
    if a.NaN? || b.NaN? then NaN
    else if a.NegInf? || b.PosInf? then b
    else if b.NegInf? || a.PosInf? then a
    else if a.v >= b.v then a else b
  }

  function Exp(e: real -> real, a: Ext): Ext {
    match a
    case NegInf => Fin(0.0)
    case Fin(x) => Fin(e(x))
    case PosInf => PosInf
    case NaN => NaN
  }

  function Log(log: real -> real, a: Ext): Ext {
    if a.Fin? && a.v > 0.0 then Fin(log(a.v))
    else if a == Fin(0.0) then NegInf
    else if a.PosInf? then PosInf
    else NaN
  }

  /** Names a pair of arguments, so that the law of exponents is used only where asked for. */
  ghost predicate At(x: real, y: real) { true }

  /** All that is used of exp and exp2. */
  ghost predicate IsExp(e: real -> real) {
    && (forall x :: e(x) > 0.0)
    && (forall x, y {:trigger At(x, y)} :: At(x, y) ==> e(x + y) == e(x) * e(y))
  }

  /** `log` undoes `e` on the positive reals. */
  ghost predicate IsLog(e: real -> real, log: real -> real) {
    forall x {:trigger log(x)} :: x > 0.0 ==> e(log(x)) == x
  }

  lemma ExpOfSum(e: real -> real, x: real, y: real)
    requires IsExp(e)
    ensures e(x + y) == e(x) * e(y)
  {
    assert At(x, y);
  }

  lemma ExpOf(e: real -> real, x: real, y: real, z: real, product: real)
    requires IsExp(e) && z == x + y && product == e(z)
    ensures product == e(x) * e(y) && product > 0.0
  {
    ExpOfSum(e, x, y);
  }

  lemma UnitFactor(u: real, x: real)
    requires u * x == x && x > 0.0
    ensures u == 1.0
  {
    assert (u - 1.0) * x == 0.0;
  }

  lemma ExpOfZero(e: real -> real, z: real)
    requires IsExp(e) && z == 0.0
    ensures e(z) == 1.0
  {
    ExpOf(e, z, z, z, e(z));
    UnitFactor(e(z), e(z));
  }

  lemma ExpLaw(e: real -> real, x: real, y: real)
    requires IsExp(e)
    ensures e(x + y) == e(x) * e(y)
    ensures e(0.0) == 1.0
  {
    ExpOfSum(e, x, y);
    ExpOfZero(e, 0.0);
  }

  lemma PositiveProduct(a: real, b: real)
    requires a > 0.0 && b > 0.0
    ensures a * b > 0.0
  {
  }

  // Reductions over one tile.

  function AMax(q: seq<Ext>): Ext {
    if q == [] then NegInf else Max(AMax(q[..|q| - 1]), q[|q| - 1])
  }

  function SumTile(p: seq<Ext>): Ext {
    if p == [] then Fin(0.0) else Add(SumTile(p[..|p| - 1]), p[|p| - 1])
  }

  function DotTile(p: seq<Ext>, x: seq<real>): Ext
    requires |p| == |x|
  {
    if p == [] then Fin(0.0)
    else Add(DotTile(p[..|p| - 1], x[..|p| - 1]), Mul(p[|p| - 1], Fin(x[|p| - 1])))
  }

  // What the loop state stands for: sums over the keys seen so far.

  function Weight(e: real -> real, s: Ext, m: real): real {
    if s.Fin? then e(s.v - m) else 0.0
  }

  /** The contribution of each key, relative to the shift m. */
  function Terms(e: real -> real, s: int -> Ext, x: int -> real, m: real): int -> real {
    k => Weight(e, s(k), m) * x(k)
  }

  function KeySum(g: int -> real, keys: seq<int>): real {
    if keys == [] then 0.0 else KeySum(g, keys[..|keys| - 1]) + g(keys[|keys| - 1])
  }

  function Mass(e: real -> real, s: int -> Ext, x: int -> real, keys: seq<int>, m: real): real {
    KeySum(Terms(e, s, x, m), keys)
  }

  function MaxOf(s: int -> Ext, keys: seq<int>): Ext {
    if keys == [] then NegInf else Max(MaxOf(s, keys[..|keys| - 1]), s(keys[|keys| - 1]))
  }

  function One(): int -> real { _ => 1.0 }

  function Column(v: (int, int) -> real, d: int): int -> real { n => v(n, d) }

  function Range(lo: int, hi: int): (r: seq<int>)
    ensures |r| == if lo < hi then hi - lo else 0
    ensures forall i :: 0 <= i < |r| ==> r[i] == lo + i
  {
    if lo < hi then seq(hi - lo, i => lo + i) else []
  }

  lemma {:induction false} KeySumConcat(g: int -> real, a: seq<int>, b: seq<int>)
    ensures KeySum(g, a + b) == KeySum(g, a) + KeySum(g, b)
  {
    if b == [] {
      assert a + b == a;
    } else {
      KeySumConcat(g, a, b[..|b| - 1]);
      assert (a + b)[..|a + b| - 1] == a + b[..|b| - 1];
    }
  }

  lemma {:induction false} KeySumScale(g: int -> real, h: int -> real, keys: seq<int>, c: real)
    requires forall k :: h(k) == g(k) * c
    ensures KeySum(h, keys) == KeySum(g, keys) * c
  {
    if keys != [] {
      KeySumScale(g, h, keys[..|keys| - 1], c);
    }
  }

  lemma {:induction false} KeySumZero(g: int -> real, keys: seq<int>)
    requires forall i :: 0 <= i < |keys| ==> g(keys[i]) == 0.0
    ensures KeySum(g, keys) == 0.0
  {
    if keys != [] {
      KeySumZero(g, keys[..|keys| - 1]);
    }
  }

  lemma {:induction false} KeySumAtLeast(g: int -> real, keys: seq<int>, i: int)
    requires forall k :: g(k) >= 0.0
    ensures KeySum(g, keys) >= 0.0
    ensures 0 <= i < |keys| ==> KeySum(g, keys) >= g(keys[i])
  {
    if keys != [] {
      KeySumAtLeast(g, keys[..|keys| - 1], i);
    }
  }

  lemma RescaleWeight(e: real -> real, s: Ext, m: real, m': real)
    requires IsExp(e)
    ensures Weight(e, s, m') == Weight(e, s, m) * e(m - m')
  {
    if s.Fin? {
      ExpLaw(e, s.v - m, m - m');
      assert s.v - m + (m - m') == s.v - m';
    }
  }

  lemma ProductRescale(a: real, b: real, c: real)
    ensures a * b * c == a * c * b
  {
  }

  lemma MassRescale(e: real -> real, s: int -> Ext, x: int -> real, keys: seq<int>, m: real, m': real)
    requires IsExp(e)
    ensures Mass(e, s, x, keys, m') == Mass(e, s, x, keys, m) * e(m - m')
  {
    var g, h := Terms(e, s, x, m), Terms(e, s, x, m');
    forall k
      ensures h(k) == g(k) * e(m - m')
    {
      RescaleWeight(e, s(k), m, m');
      ProductRescale(Weight(e, s(k), m), e(m - m'), x(k));
    }
    KeySumScale(g, h, keys, e(m - m'));
  }

  lemma {:induction false} MaxOfConcat(s: int -> Ext, a: seq<int>, b: seq<int>)
    ensures MaxOf(s, a + b) == Max(MaxOf(s, a), MaxOf(s, b))
  {
    if b == [] {
      assert a + b == a;
    } else {
      MaxOfConcat(s, a, b[..|b| - 1]);
      assert (a + b)[..|a + b| - 1] == a + b[..|b| - 1];
    }
  }

  /** A score that softmax can weigh. */
  predicate IsProper(a: Ext) {
    a.NegInf? || a.Fin?
  }

  ghost predicate Proper(s: int -> Ext, keys: seq<int>) {
    forall i :: 0 <= i < |keys| ==> IsProper(s(keys[i]))
  }

  ghost predicate HasNaN(s: int -> Ext, keys: seq<int>) {
    exists i :: 0 <= i < |keys| && s(keys[i]).NaN?
  }

  ghost predicate AllHidden(s: int -> Ext, keys: seq<int>) {
    forall i :: 0 <= i < |keys| ==> s(keys[i]).NegInf?
  }

  lemma LastKey(s: int -> Ext, keys: seq<int>)
    requires keys != []
    ensures var front, last := keys[..|keys| - 1], s(keys[|keys| - 1]);
            && (Proper(s, keys) <==> Proper(s, front) && IsProper(last))
            && (HasNaN(s, keys) <==> HasNaN(s, front) || last.NaN?)
            && (AllHidden(s, keys) <==> AllHidden(s, front) && last.NegInf?)
  {
    var front := keys[..|keys| - 1];
    assert keys == front + [keys[|keys| - 1]];
    assert forall i :: 0 <= i < |front| ==> keys[i] == front[i];
    if HasNaN(s, front) {
      var i :| 0 <= i < |front| && s(front[i]).NaN?;
      assert s(keys[i]).NaN?;
    }
  }

  lemma {:induction false} MaxOfSpec(s: int -> Ext, keys: seq<int>)
    ensures IsProper(MaxOf(s, keys)) <==> Proper(s, keys)
    ensures MaxOf(s, keys).NaN? <==> HasNaN(s, keys)
    ensures MaxOf(s, keys).NegInf? <==> AllHidden(s, keys)
    ensures !MaxOf(s, keys).NegInf? ==> exists i :: 0 <= i < |keys| && s(keys[i]) == MaxOf(s, keys)
  {
    if keys != [] {
      var front, last := keys[..|keys| - 1], keys[|keys| - 1];
      MaxOfSpec(s, front);
      LastKey(s, keys);
      if !MaxOf(s, keys).NegInf? && MaxOf(s, keys) != s(last) {
        var i :| 0 <= i < |front| && s(front[i]) == MaxOf(s, front);
        assert s(keys[i]) == MaxOf(s, keys);
      }
    }
  }

  /** With every score at minus infinity there is no mass. */
  lemma MassOfHidden(e: real -> real, s: int -> Ext, x: int -> real, keys: seq<int>, m: real)
    requires forall i :: 0 <= i < |keys| ==> s(keys[i]).NegInf?
    ensures Mass(e, s, x, keys, m) == 0.0
  {
    forall i | 0 <= i < |keys|
      ensures Terms(e, s, x, m)(keys[i]) == 0.0
    {
      assert Weight(e, s(keys[i]), m) == 0.0;
    }
    KeySumZero(Terms(e, s, x, m), keys);
  }

  /** The key that attains the maximum has weight one and no weight is negative. */
  lemma MassAtLeastOne(e: real -> real, s: int -> Ext, keys: seq<int>, m: real, i: nat)
    requires IsExp(e)
    requires i < |keys| && s(keys[i]) == Fin(m)
    ensures Mass(e, s, One(), keys, m) >= 1.0
  {
    ExpLaw(e, 0.0, 0.0);
    forall k
      ensures Terms(e, s, One(), m)(k) >= 0.0
    {
      assert Weight(e, s(k), m) >= 0.0;
    }
    assert Terms(e, s, One(), m)(keys[i]) == Weight(e, s(keys[i]), m) == 1.0;
    KeySumAtLeast(Terms(e, s, One(), m), keys, i);
  }

  // Loop state.

  /** One row of the running state: maximum, normaliser, weighted value sums. */
  datatype Row = Row(m: Ext, l: Ext, acc: seq<Ext>)

  /** The attention kernels start at -inf, 1.0 and zeros. */
  function InitRow(dim: nat): Row {
    Row(NegInf, Fin(1.0), seq(dim, _ => Fin(0.0)))
  }

  /** The numerators of one tile: exp of the shifted scores. */
  function TileExp(e: real -> real, qk: seq<Ext>, shift: Ext): seq<Ext> {
    seq(|qk|, j requires 0 <= j < |qk| => Exp(e, Sub(qk[j], shift)))
  }

  /** The statements after the new maximum is known: p, alpha, l and acc. */
  function Update(e: real -> real, row: Row, qk: seq<Ext>, v: seq<seq<real>>, mIj: Ext, shift: Ext): Row
    requires |v| == |row.acc|
    requires forall d :: 0 <= d < |v| ==> |v[d]| == |qk|
  {
    var p := TileExp(e, qk, shift);
    var alpha := Exp(e, Sub(row.m, shift));
    Row(mIj,
        Add(Mul(row.l, alpha), SumTile(p)),
        seq(|row.acc|, d requires 0 <= d < |row.acc| => Add(Mul(row.acc[d], alpha), DotTile(p, v[d]))))
  }

  /** One iteration of the flex attention inner loop, on one row. */
  function SafeStep(e: real -> real, row: Row, qk: seq<Ext>, v: seq<seq<real>>): Row
    requires |v| == |row.acc|
    requires forall d :: 0 <= d < |v| ==> |v[d]| == |qk|
  {
    var mIj := Max(row.m, AMax(qk));
    var mSafe := if mIj == NegInf then Fin(0.0) else mIj;
    Update(e, row, qk, v, mIj, mSafe)
  }

  /** One iteration of the dense and causal inner loops, which subtract the new maximum itself. */
  function PlainStep(e: real -> real, row: Row, qk: seq<Ext>, v: seq<seq<real>>): Row
    requires |v| == |row.acc|
    requires forall d :: 0 <= d < |v| ==> |v[d]| == |qk|
  {
    var mIj := Max(row.m, AMax(qk));
    Update(e, row, qk, v, mIj, mIj)
  }

  /** The row holds the softmax statistics of the keys, taken relative to their maximum. */
  ghost predicate Represents(e: real -> real, s: int -> Ext, v: (int, int) -> real, keys: seq<int>, dim: nat, row: Row) {
    && |row.acc| == dim
    && row.m == MaxOf(s, keys)
    && (row.m.NegInf? ==>
          && row.l == Fin(if keys == [] then 1.0 else 0.0)
          && forall d :: 0 <= d < dim ==> row.acc[d] == Fin(0.0))
    && (row.m.Fin? ==>
          && row.l == Fin(Mass(e, s, One(), keys, row.m.v))
          && forall d :: 0 <= d < dim ==> row.acc[d] == Fin(Mass(e, s, Column(v, d), keys, row.m.v)))
    && (!IsProper(row.m) ==> row.l == NaN && forall d :: 0 <= d < dim ==> row.acc[d] == NaN)
  }

  ghost predicate TileOf(s: int -> Ext, v: (int, int) -> real, keys: seq<int>, dim: nat, qk: seq<Ext>, vt: seq<seq<real>>) {
    && |qk| == |keys| && |vt| == dim
    && (forall j :: 0 <= j < |keys| ==> qk[j] == s(keys[j]))
    && (forall d :: 0 <= d < dim ==> |vt[d]| == |keys|)
    && (forall d, j :: 0 <= d < dim && 0 <= j < |keys| ==> vt[d][j] == v(keys[j], d))
  }

  lemma {:induction false} AMaxIsMaxOf(s: int -> Ext, keys: seq<int>, qk: seq<Ext>)
    requires |qk| == |keys| && forall j :: 0 <= j < |keys| ==> qk[j] == s(keys[j])
    ensures AMax(qk) == MaxOf(s, keys)
  {
    if keys != [] {
      AMaxIsMaxOf(s, keys[..|keys| - 1], qk[..|qk| - 1]);
    }
  }

  lemma {:induction false} SumTileIsKeySum(g: int -> real, keys: seq<int>, p: seq<Ext>)
    requires |p| == |keys| && forall j :: 0 <= j < |keys| ==> p[j] == Fin(g(keys[j]))
    ensures SumTile(p) == Fin(KeySum(g, keys))
  {
    if keys != [] {
      SumTileIsKeySum(g, keys[..|keys| - 1], p[..|p| - 1]);
    }
  }

  lemma {:induction false} DotTileIsKeySum(g: int -> real, keys: seq<int>, p: seq<Ext>, y: seq<real>)
    requires |p| == |keys| == |y|
    requires forall j :: 0 <= j < |keys| ==> Mul(p[j], Fin(y[j])) == Fin(g(keys[j]))
    ensures DotTile(p, y) == Fin(KeySum(g, keys))
  {
    if keys != [] {
      DotTileIsKeySum(g, keys[..|keys| - 1], p[..|p| - 1], y[..|y| - 1]);
    }
  }

  lemma TileExpIsWeight(e: real -> real, s: int -> Ext, keys: seq<int>, qk: seq<Ext>, shift: real)
    requires Proper(s, keys)
    requires |qk| == |keys| && forall j :: 0 <= j < |keys| ==> qk[j] == s(keys[j])
    ensures forall j :: 0 <= j < |keys| ==> TileExp(e, qk, Fin(shift))[j] == Fin(Weight(e, s(keys[j]), shift))
  {
  }

  lemma TileProducts(e: real -> real, s: int -> Ext, x: int -> real, keys: seq<int>, qk: seq<Ext>, y: seq<real>, shift: real)
    requires Proper(s, keys)
    requires |qk| == |keys| && forall j :: 0 <= j < |keys| ==> qk[j] == s(keys[j])
    requires |y| == |keys| && forall j :: 0 <= j < |keys| ==> y[j] == x(keys[j])
    ensures forall j :: 0 <= j < |keys| ==>
              Mul(TileExp(e, qk, Fin(shift))[j], Fin(y[j])) == Fin(Terms(e, s, x, shift)(keys[j]))
  {
    TileExpIsWeight(e, s, keys, qk, shift);
  }

  lemma TileExpLength(e: real -> real, qk: seq<Ext>, shift: Ext)
    ensures |TileExp(e, qk, shift)| == |qk|
  {
  }

  lemma TileTerms(e: real -> real, s: int -> Ext, keys: seq<int>, qk: seq<Ext>, shift: real)
    requires Proper(s, keys)
    requires |qk| == |keys| && forall j :: 0 <= j < |keys| ==> qk[j] == s(keys[j])
    ensures |TileExp(e, qk, Fin(shift))| == |keys|
    ensures forall j :: 0 <= j < |keys| ==> TileExp(e, qk, Fin(shift))[j] == Fin(Terms(e, s, One(), shift)(keys[j]))
  {
    hide Weight, Exp, Sub, Proper, TileExp;
    assert |TileExp(e, qk, Fin(shift))| == |qk| by {
      TileExpLength(e, qk, Fin(shift));
    }
    TileExpIsWeight(e, s, keys, qk, shift);
  }

  /** Rescaling an old sum; the initial l = 1.0 is erased because alpha is then zero. */
  lemma ShiftOld(e: real -> real, s: int -> Ext, x: int -> real, seen: seq<int>, m: Ext, oldSum: Ext, shift: real)
    requires IsExp(e)
    requires Proper(s, seen)
    requires m == MaxOf(s, seen) && oldSum.Fin?
    requires m.Fin? ==> oldSum == Fin(Mass(e, s, x, seen, m.v))
    ensures Mul(oldSum, Exp(e, Sub(m, Fin(shift)))) == Fin(Mass(e, s, x, seen, shift))
  {
    MaxOfSpec(s, seen);
    if m.Fin? {
      MassRescale(e, s, x, seen, m.v, shift);
    } else {
      MassOfHidden(e, s, x, seen, shift);
      assert Exp(e, Sub(m, Fin(shift))) == Fin(0.0);
    }
  }

  lemma TileSum(e: real -> real, s: int -> Ext, seen: seq<int>, keys: seq<int>, m: Ext, l: Ext, qk: seq<Ext>, shift: real)
    requires IsExp(e)
    requires Proper(s, seen) && Proper(s, keys)
    requires m == MaxOf(s, seen) && l.Fin?
    requires m.Fin? ==> l == Fin(Mass(e, s, One(), seen, m.v))
    requires |qk| == |keys| && forall j :: 0 <= j < |keys| ==> qk[j] == s(keys[j])
    ensures Add(Mul(l, Exp(e, Sub(m, Fin(shift)))), SumTile(TileExp(e, qk, Fin(shift))))
         == Fin(Mass(e, s, One(), seen + keys, shift))
  {
    hide Terms, KeySum, MaxOf, Mul, Exp, Sub, SumTile, TileExp, Proper, IsExp;
    TileTerms(e, s, keys, qk, shift);
    SumTileIsKeySum(Terms(e, s, One(), shift), keys, TileExp(e, qk, Fin(shift)));
    KeySumConcat(Terms(e, s, One(), shift), seen, keys);
    ShiftOld(e, s, One(), seen, m, l, shift);
  }

  lemma TileDot(e: real -> real, s: int -> Ext, x: int -> real, seen: seq<int>, keys: seq<int>, m: Ext, a: Ext,
                qk: seq<Ext>, y: seq<real>, shift: real)
    requires IsExp(e)
    requires Proper(s, seen) && Proper(s, keys)
    requires m == MaxOf(s, seen) && a.Fin?
    requires m.Fin? ==> a == Fin(Mass(e, s, x, seen, m.v))
    requires |qk| == |keys| && forall j :: 0 <= j < |keys| ==> qk[j] == s(keys[j])
    requires |y| == |keys| && forall j :: 0 <= j < |keys| ==> y[j] == x(keys[j])
    ensures Add(Mul(a, Exp(e, Sub(m, Fin(shift)))), DotTile(TileExp(e, qk, Fin(shift)), y))
         == Fin(Mass(e, s, x, seen + keys, shift))
  {
    hide Terms, KeySum, MaxOf, Mul, Exp, Sub, DotTile, TileExp, Proper, IsExp;
    TileExpLength(e, qk, Fin(shift));
    TileProducts(e, s, x, keys, qk, y, shift);
    DotTileIsKeySum(Terms(e, s, x, shift), keys, TileExp(e, qk, Fin(shift)), y);
    KeySumConcat(Terms(e, s, x, shift), seen, keys);
    ShiftOld(e, s, x, seen, m, a, shift);
  }

  /** The update with a finite shift: old sums rescaled by alpha, plus the tile's own mass. */
  lemma UpdateShifts(e: real -> real, s: int -> Ext, v: (int, int) -> real, seen: seq<int>, keys: seq<int>, dim: nat,
                     row: Row, qk: seq<Ext>, vt: seq<seq<real>>, mIj: Ext, shift: real)
    requires IsExp(e)
    requires Proper(s, seen) && Proper(s, keys)
    requires Represents(e, s, v, seen, dim, row)
    requires TileOf(s, v, keys, dim, qk, vt)
    ensures var next := Update(e, row, qk, vt, mIj, Fin(shift));
            && next.m == mIj
            && next.l == Fin(Mass(e, s, One(), seen + keys, shift))
            && |next.acc| == dim
            && forall d :: 0 <= d < dim ==> next.acc[d] == Fin(Mass(e, s, Column(v, d), seen + keys, shift))
  {
    MaxOfSpec(s, seen);
    TileSum(e, s, seen, keys, row.m, row.l, qk, shift);
    forall d | 0 <= d < dim
      ensures Update(e, row, qk, vt, mIj, Fin(shift)).acc[d] == Fin(Mass(e, s, Column(v, d), seen + keys, shift))
    {
      TileDot(e, s, Column(v, d), seen, keys, row.m, row.acc[d], qk, vt[d], shift);
    }
  }

  lemma ProperConcat(s: int -> Ext, a: seq<int>, b: seq<int>)
    ensures Proper(s, a + b) <==> Proper(s, a) && Proper(s, b)
  {
    assert forall i :: 0 <= i < |a| ==> (a + b)[i] == a[i];
    assert forall i :: 0 <= i < |b| ==> (a + b)[|a| + i] == b[i];
  }

  lemma {:induction false} NaNInTile(p: seq<Ext>, x: seq<real>, j: int)
    requires |p| == |x| && 0 <= j < |p| && p[j] == NaN
    ensures SumTile(p) == NaN && DotTile(p, x) == NaN
  {
    if j < |p| - 1 {
      NaNInTile(p[..|p| - 1], x[..|x| - 1], j);
    }
  }

  lemma {:induction false} AMaxIsAttained(q: seq<Ext>)
    requires AMax(q).PosInf?
    ensures exists j :: 0 <= j < |q| && q[j] == PosInf
  {
    if q[|q| - 1] != PosInf {
      AMaxIsAttained(q[..|q| - 1]);
      var j :| 0 <= j < |q| - 1 && q[..|q| - 1][j] == PosInf;
      assert q[j] == PosInf;
    }
  }

  /** Once the maximum is NaN or plus infinity the sums of the row are NaN: inf - inf is taken on the way. */
  lemma NaNStays(e: real -> real, row: Row, qk: seq<Ext>, v: seq<seq<real>>)
    requires |v| == |row.acc| && forall d :: 0 <= d < |v| ==> |v[d]| == |qk|
    requires row.m.PosInf? ==> row.l == NaN && forall d :: 0 <= d < |row.acc| ==> row.acc[d] == NaN
    requires !IsProper(Max(row.m, AMax(qk)))
    ensures var mIj := Max(row.m, AMax(qk));
            var next := Update(e, row, qk, v, mIj, mIj);
            next.l == NaN && |next.acc| == |row.acc| && forall d :: 0 <= d < |row.acc| ==> next.acc[d] == NaN
  {
    var mIj := Max(row.m, AMax(qk));
    if mIj.PosInf? && !row.m.PosInf? {
      AMaxIsAttained(qk);
      var j :| 0 <= j < |qk| && qk[j] == PosInf;
      var p := TileExp(e, qk, mIj);
      assert p[j] == NaN;
      NaNInTile(p, seq(|p|, _ => 0.0), j);
      forall d | 0 <= d < |row.acc|
        ensures DotTile(p, v[d]) == NaN
      {
        NaNInTile(p, v[d], j);
      }
    }
  }

  /** A guarded iteration extends what the row represents by the keys of its tile. */
  lemma SafeStepExtends(e: real -> real, s: int -> Ext, v: (int, int) -> real, seen: seq<int>, keys: seq<int>, dim: nat,
                        row: Row, qk: seq<Ext>, vt: seq<seq<real>>)
    requires IsExp(e) && keys != []
    requires Represents(e, s, v, seen, dim, row)
    requires TileOf(s, v, keys, dim, qk, vt)
    ensures Represents(e, s, v, seen + keys, dim, SafeStep(e, row, qk, vt))
  {
    hide Mass, MaxOf, AMax, Proper, HasNaN, SumTile, DotTile, TileExp, Exp, Mul, Add, Sub, IsExp;
    AMaxIsMaxOf(s, keys, qk);
    MaxOfConcat(s, seen, keys);
    MaxOfSpec(s, seen + keys);
    ProperConcat(s, seen, keys);
    var mIj := Max(row.m, AMax(qk));
    if !IsProper(mIj) {
      NaNStays(e, row, qk, vt);
    } else if mIj.Fin? {
      UpdateShifts(e, s, v, seen, keys, dim, row, qk, vt, mIj, mIj.v);
    } else {
      UpdateShifts(e, s, v, seen, keys, dim, row, qk, vt, mIj, 0.0);
      MassOfHidden(e, s, One(), seen + keys, 0.0);
      forall d | 0 <= d < dim
        ensures Mass(e, s, Column(v, d), seen + keys, 0.0) == 0.0
      {
        MassOfHidden(e, s, Column(v, d), seen + keys, 0.0);
      }
    }
  }

  lemma HiddenPlainStep(e: real -> real, row: Row, qk: seq<Ext>, v: seq<seq<real>>)
    requires |v| == |row.acc| && forall d :: 0 <= d < |v| ==> |v[d]| == |qk|
    requires Max(row.m, AMax(qk)).NegInf?
    ensures PlainStep(e, row, qk, v).m == NegInf && PlainStep(e, row, qk, v).l == NaN
  {
    hide AMax, SumTile, DotTile, TileExp;
  }

  /** Without the guard the iteration is right exactly when some score seen so far is not minus infinity. */
  lemma PlainStepExtendsIff(e: real -> real, s: int -> Ext, v: (int, int) -> real, seen: seq<int>, keys: seq<int>, dim: nat,
                            row: Row, qk: seq<Ext>, vt: seq<seq<real>>)
    requires IsExp(e) && keys != []
    requires Represents(e, s, v, seen, dim, row)
    requires TileOf(s, v, keys, dim, qk, vt)
    ensures Represents(e, s, v, seen + keys, dim, PlainStep(e, row, qk, vt)) <==> !AllHidden(s, seen + keys)
  {
    hide Mass, MaxOf, AMax, Proper, HasNaN, AllHidden, SumTile, DotTile, TileExp, Exp, Mul, Add, Sub, IsExp;
    AMaxIsMaxOf(s, keys, qk);
    MaxOfConcat(s, seen, keys);
    MaxOfSpec(s, seen + keys);
    ProperConcat(s, seen, keys);
    var mIj := Max(row.m, AMax(qk));
    if !IsProper(mIj) {
      NaNStays(e, row, qk, vt);
    } else if mIj.Fin? {
      UpdateShifts(e, s, v, seen, keys, dim, row, qk, vt, mIj, mIj.v);
    } else {
      HiddenPlainStep(e, row, qk, vt);
    }
  }

  // The dense reference: exponentials summed without any maximum.

  function Numerator(e: real -> real, s: int -> Ext, x: int -> real, n: int): real {
    Sum(Terms(e, s, x, 0.0), 0, n)
  }

  /** A numerator depends on the scores and weights of its keys only. */
  lemma NumeratorEq(e: real -> real, s: int -> Ext, x: int -> real, t: int -> Ext, y: int -> real, n: int)
    requires forall k :: 0 <= k < n ==> s(k) == t(k) && x(k) == y(k)
    ensures Numerator(e, s, x, n) == Numerator(e, t, y, n)
  {
    SumEq(Terms(e, s, x, 0.0), Terms(e, t, y, 0.0), 0, n);
  }

  /** Hidden keys at the end add nothing to a numerator. */
  lemma NumeratorOfVisible(e: real -> real, s: int -> Ext, x: int -> real, visible: int, n: int)
    requires 0 <= visible <= n
    requires forall k :: visible <= k < n ==> s(k).NegInf?
    ensures Numerator(e, s, x, n) == Numerator(e, s, x, visible)
  {
    var terms := Terms(e, s, x, 0.0);
    SumSplit(terms, 0, visible, n);
    forall k | visible <= k < n
      ensures terms(k) == 0.0
    {
      assert s(k).NegInf?;
    }
    SumZero(terms, visible, n);
  }

  ghost predicate Distinct(keys: seq<int>) {
    forall i, j :: 0 <= i < j < |keys| ==> keys[i] != keys[j]
  }

  /** The keys visited are exactly 0..n up to order, except that hidden ones may be skipped. */
  ghost predicate Covers(s: int -> Ext, keys: seq<int>, n: int) {
    && Distinct(keys)
    && (forall i :: 0 <= i < |keys| ==> 0 <= keys[i] < n)
    && (forall k :: 0 <= k < n && k !in keys ==> s(k).NegInf?)
  }

  lemma RangeCovers(s: int -> Ext, n: nat)
    ensures Covers(s, Range(0, n), n)
  {
    forall k | 0 <= k < n
      ensures k in Range(0, n)
    {
      assert Range(0, n)[k] == k;
    }
  }

  /** g on the listed indices, zero elsewhere. */
  function Restricted(g: int -> real, keys: seq<int>): int -> real {
    k => if k in keys then g(k) else 0.0
  }

  /** Listing one more index changes one term. */
  lemma RestrictedStep(g: int -> real, front: seq<int>, last: int)
    requires last !in front
    ensures forall k :: k != last ==> Restricted(g, front + [last])(k) == Restricted(g, front)(k)
    ensures Restricted(g, front)(last) == 0.0 && Restricted(g, front + [last])(last) == g(last)
  {
  }

  lemma DistinctFront(keys: seq<int>)
    requires Distinct(keys) && keys != []
    ensures Distinct(keys[..|keys| - 1]) && keys[|keys| - 1] !in keys[..|keys| - 1]
    ensures keys == keys[..|keys| - 1] + [keys[|keys| - 1]]
  {
    var front, last := keys[..|keys| - 1], keys[|keys| - 1];
    forall i | 0 <= i < |front|
      ensures front[i] != last
    {
      assert keys[i] != keys[|keys| - 1];
    }
  }

  /** The part of a sum carried by a duplicate-free list of indices. */
  lemma {:induction false} KeySumIsRestrictedSum(g: int -> real, keys: seq<int>, n: int)
    requires Distinct(keys)
    requires forall i :: 0 <= i < |keys| ==> 0 <= keys[i] < n
    ensures KeySum(g, keys) == Sum(Restricted(g, keys), 0, n)
  {
    if keys == [] {
      SumZero(Restricted(g, keys), 0, n);
    } else {
      hide Sum, Distinct, Restricted;
      var front, last := keys[..|keys| - 1], keys[|keys| - 1];
      DistinctFront(keys);
      KeySumIsRestrictedSum(g, front, n);
      RestrictedStep(g, front, last);
      SumUpdate(Restricted(g, front), Restricted(g, keys), 0, n, last);
    }
  }

  lemma MassIsSum(e: real -> real, s: int -> Ext, x: int -> real, keys: seq<int>, n: int)
    requires Covers(s, keys, n)
    ensures Mass(e, s, x, keys, 0.0) == Numerator(e, s, x, n)
  {
    var g := Terms(e, s, x, 0.0);
    KeySumIsRestrictedSum(g, keys, n);
    SumEq(Restricted(g, keys), g, 0, n);
  }

  /** What a finished row stores: acc / l, and m + log(l), with the zero guard of flex attention. */
  function Normalised(row: Row): seq<Ext> {
    seq(|row.acc|, d requires 0 <= d < |row.acc| => Div(row.acc[d], row.l))
  }

  ghost predicate SomeVisible(s: int -> Ext, n: int) {
    exists k :: 0 <= k < n && s(k).Fin?
  }

  ghost predicate SomeNaN(s: int -> Ext, n: int) {
    exists k :: 0 <= k < n && s(k).NaN?
  }

  ghost predicate SomePosInf(s: int -> Ext, n: int) {
    exists k :: 0 <= k < n && s(k).PosInf?
  }

  lemma MaxIsVisible(s: int -> Ext, keys: seq<int>, n: int)
    requires Covers(s, keys, n)
    ensures MaxOf(s, keys).NaN? <==> SomeNaN(s, n)
    ensures MaxOf(s, keys).PosInf? <==> SomePosInf(s, n) && !SomeNaN(s, n)
    ensures MaxOf(s, keys).Fin? <==> SomeVisible(s, n) && !SomePosInf(s, n) && !SomeNaN(s, n)
  {
    hide Distinct;
    MaxOfSpec(s, keys);
    forall k | 0 <= k < n && !s(k).NegInf?
      ensures exists i :: 0 <= i < |keys| && keys[i] == k
    {
      assert k in keys;
    }
    if !MaxOf(s, keys).NegInf? {
      var i :| 0 <= i < |keys| && s(keys[i]) == MaxOf(s, keys);
      assert 0 <= keys[i] < n;
    }
  }

  lemma MassUnshifted(e: real -> real, s: int -> Ext, x: int -> real, keys: seq<int>, n: int, m: real)
    requires IsExp(e)
    requires Covers(s, keys, n)
    ensures Numerator(e, s, x, n) == Mass(e, s, x, keys, m) * e(m)
  {
    MassRescale(e, s, x, keys, m, 0.0);
    MassIsSum(e, s, x, keys, n);
    assert m - 0.0 == m;
  }

  lemma CancelFactor(a: real, b: real, c: real)
    requires b != 0.0 && c != 0.0
    ensures b * c != 0.0 && (a * c) / (b * c) == a / b
  {
    var q := a / b;
    assert q * b == a;
    assert q * (b * c) == a * c;
  }

  /** The quotient of two masses does not depend on the shift. */
  lemma RatioIsShiftFree(e: real -> real, s: int -> Ext, x: int -> real, keys: seq<int>, n: int, m: real)
    requires IsExp(e)
    requires Covers(s, keys, n)
    requires Mass(e, s, One(), keys, m) > 0.0
    ensures Numerator(e, s, One(), n) != 0.0
    ensures Mass(e, s, x, keys, m) / Mass(e, s, One(), keys, m) == Numerator(e, s, x, n) / Numerator(e, s, One(), n)
  {
    MassUnshifted(e, s, One(), keys, n, m);
    MassUnshifted(e, s, x, keys, n, m);
    CancelFactor(Mass(e, s, x, keys, m), Mass(e, s, One(), keys, m), e(m));
  }

  lemma LogOfNormaliser(e: real -> real, log: real -> real, m: real, l: real)
    requires IsExp(e) && IsLog(e, log)
    requires l > 0.0
    ensures e(m + log(l)) == l * e(m)
    ensures e(m) > 0.0
    ensures l * e(m) > 0.0
  {
    ExpLaw(e, m, log(l));
  }

  /**
   * A row that has seen all visible keys holds the dense softmax and the log of its normaliser.
   * A single score of NaN or plus infinity makes all of them NaN.
   */
  lemma RowIsSoftmax(e: real -> real, log: real -> real, s: int -> Ext, v: (int, int) -> real, keys: seq<int>, n: int, dim: nat, row: Row)
    requires IsExp(e) && IsLog(e, log)
    requires Covers(s, keys, n)
    requires Represents(e, s, v, keys, dim, row)
    ensures row.m.NaN? <==> SomeNaN(s, n)
    ensures row.m.PosInf? <==> SomePosInf(s, n) && !SomeNaN(s, n)
    ensures row.m.Fin? <==> SomeVisible(s, n) && !SomePosInf(s, n) && !SomeNaN(s, n)
    ensures !IsProper(row.m) ==>
              row.l == NaN && Add(row.m, Log(log, row.l)) == NaN && forall d :: 0 <= d < dim ==> Normalised(row)[d] == NaN
    ensures row.m.Fin? ==>
              && row.l.Fin? && row.l.v >= 1.0
              && Numerator(e, s, One(), n) > 0.0
              && (forall d :: 0 <= d < dim ==>
                    Normalised(row)[d] == Fin(Numerator(e, s, Column(v, d), n) / Numerator(e, s, One(), n)))
              && Add(row.m, Log(log, row.l)).Fin?
              && e(Add(row.m, Log(log, row.l)).v) == Numerator(e, s, One(), n)
  {
    hide Covers, Mass, Numerator, Proper, IsExp, IsLog, MaxOf, SomeNaN, SomePosInf, SomeVisible, AllHidden, HasNaN;
    MaxIsVisible(s, keys, n);
    if row.m.Fin? {
      var m := row.m.v;
      MaxOfSpec(s, keys);
      var top :| 0 <= top < |keys| && s(keys[top]) == row.m;
      MassAtLeastOne(e, s, keys, m, top);
      MassUnshifted(e, s, One(), keys, n, m);
      LogOfNormaliser(e, log, m, row.l.v);
      forall d | 0 <= d < dim
        ensures Normalised(row)[d] == Fin(Numerator(e, s, Column(v, d), n) / Numerator(e, s, One(), n))
      {
        RatioIsShiftFree(e, s, Column(v, d), keys, n, m);
      }
    }
  }
}
