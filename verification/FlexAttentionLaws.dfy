// What the rows that examples/flex_attention.py stores mean in simpler terms: over repeated heads, with
// expanded block tables, with the mask inside score_mod, and as the attention of examples/attention.py.
module FlexAttentionLaws {
  import opened Tiling
  import opened Sums
  import opened OnlineSoftmax
  import opened FlexAttention
  import A = Attention

  // Grouped heads.

  /** The same problem with every key and value head written out once for each query head of its group. */
  ghost predicate Repeats(p: Problem, wide: Problem)
    requires p.kvHeads > 0
  {
    var groups := p.heads / p.kvHeads;
    && wide == p.(kvHeads := p.heads, enableGqa := wide.enableGqa, key := wide.key, value := wide.value)
    && (forall b, g, h, n, d :: 0 <= g < p.kvHeads && g * groups <= h < g * groups + groups
                                ==> wide.key(b, h, n, d) == p.key(b, g, n, d) && wide.value(b, h, n, d) == p.value(b, g, n, d))
  }

  lemma HeadsAreGroups(p: Problem)
    requires Valid(p)
    ensures p.heads == p.kvHeads * (p.heads / p.kvHeads)
  {
    DivMod(p.heads, p.kvHeads);
    if !p.enableGqa {
      DivModUnique(p.heads, 1, 0, p.kvHeads);
    }
  }

  lemma GroupOfHead(h: int, kvHeads: int, groups: int)
    requires groups > 0 && 0 <= h < kvHeads * groups
    ensures 0 <= h / groups < kvHeads
    ensures h / groups * groups <= h < h / groups * groups + groups
  {
    DivBounds(h, h, groups);
    NextMultiple(h / groups, groups);
    if h / groups >= kvHeads {
      MulMonotone(kvHeads, h / groups, groups);
    }
  }

  lemma HeadInGroup(p: Problem, h: int)
    requires Valid(p) && 0 <= h < p.heads
    ensures var groups, g := p.heads / p.kvHeads, KvHead(p, h);
            0 <= g < p.kvHeads && g * groups <= h < g * groups + groups
  {
    HeadsAreGroups(p);
    GroupOfHead(h, p.kvHeads, p.heads / p.kvHeads);
  }

  lemma OwnHead(p: Problem, h: int)
    requires p.heads > 0 && p.kvHeads == p.heads
    ensures p.heads / p.kvHeads == 1 && KvHead(p, h) == h
  {
    DivUnique(p.heads, 1, p.heads);
  }

  lemma RepeatedRow(p: Problem, wide: Problem, b: int, h: int, m: int, n: int)
    requires Valid(p) && Repeats(p, wide) && 0 <= h < p.heads
    ensures wide.heads / wide.kvHeads == 1
    ensures RowScores(wide, b, h, m)(n) == RowScores(p, b, h, m)(n)
    ensures forall d :: HeadValues(wide, b, h)(n, d) == HeadValues(p, b, h)(n, d)
  {
    hide Sum, KvHead, Mul;
    HeadInGroup(p, h);
    OwnHead(wide, h);
    forall d
      ensures QkTerms(wide, b, h, m, n)(d) == QkTerms(p, b, h, m, n)(d)
    {
      assert wide.key(b, h, n, d) == p.key(b, KvHead(p, h), n, d);
    }
    SumEq(QkTerms(wide, b, h, m, n), QkTerms(p, b, h, m, n), 0, p.dim);
    assert Qk(wide, b, h, m, n) == Qk(p, b, h, m, n);
  }

  /** Equal scores and values make equal rows. */
  lemma StoredOfEqualRows(p: Problem, wide: Problem, e: real -> real, b: int, h: int, m: int, out: seq<Ext>, lse: Ext)
    requires p.kvHeads > 0 && p.heads / p.kvHeads > 0 && wide.kvHeads > 0 && wide.heads / wide.kvHeads > 0
    requires wide.keys == p.keys && wide.dim == p.dim
    requires forall n :: RowScores(wide, b, h, m)(n) == RowScores(p, b, h, m)(n)
    requires forall n, d :: HeadValues(wide, b, h)(n, d) == HeadValues(p, b, h)(n, d)
    ensures IsStored(p, e, b, h, m, out, lse) <==> IsStored(wide, e, b, h, m, out, lse)
  {
    hide Numerator, RowScores, HeadValues;
    var s, t := RowScores(p, b, h, m), RowScores(wide, b, h, m);
    NumeratorEq(e, s, One(), t, One(), p.keys);
    forall d
      ensures Numerator(e, s, Column(HeadValues(p, b, h), d), p.keys) == Numerator(e, t, Column(HeadValues(wide, b, h), d), p.keys)
    {
      NumeratorEq(e, s, Column(HeadValues(p, b, h), d), t, Column(HeadValues(wide, b, h), d), p.keys);
    }
  }

  /**
   * Grouped-query attention is attention over repeated heads: each key and value head serves `groups`
   * query heads in a row.
   */
  lemma GroupsAreRepeats(p: Problem, wide: Problem, e: real -> real, b: int, h: int, m: int, out: seq<Ext>, lse: Ext)
    requires Valid(p) && Repeats(p, wide) && 0 <= h < p.heads
    ensures wide.heads / wide.kvHeads == 1
    ensures IsStored(p, e, b, h, m, out, lse) <==> IsStored(wide, e, b, h, m, out, lse)
  {
    hide RowScores, HeadValues, IsStored;
    OwnHead(wide, h);
    forall n
      ensures RowScores(wide, b, h, m)(n) == RowScores(p, b, h, m)(n)
    {
      RepeatedRow(p, wide, b, h, m, n);
    }
    forall n, d
      ensures HeadValues(wide, b, h)(n, d) == HeadValues(p, b, h)(n, d)
    {
      RepeatedRow(p, wide, b, h, m, n);
    }
    StoredOfEqualRows(p, wide, e, b, h, m, out, lse);
  }

  // Block tables.

  /** Tables repeat over batches and heads: every entry of theirs is met at all multiples of their sizes. */
  lemma TablesRepeat(p: Problem, t: BlockTable, b: nat, h: nat, c: nat, g: nat, sparseRow: int)
    requires b < p.tableBatch && h < p.tableHeads
    ensures var blocks := Listed(p, t, c * p.tableBatch + b, g * p.tableHeads + h, sparseRow);
            |blocks| == t.count(b, h, sparseRow) && forall i :: 0 <= i < |blocks| ==> blocks[i] == t.index(b, h, sparseRow, i)
  {
    DivModUnique(c * p.tableBatch + b, c, b, p.tableBatch);
    DivModUnique(g * p.tableHeads + h, g, h, p.tableHeads);
  }

  // Masks.

  /** The same problem with its mask applied by score_mod. */
  ghost predicate MaskedByScore(p: Problem, other: Problem) {
    && other == p.(scoreMod := other.scoreMod, maskMod := other.maskMod)
    && (forall b, h, m, n :: other.maskMod(b, h, m, n))
    && (forall x, b, h, m, n :: other.scoreMod(x, b, h, m, n) == if p.maskMod(b, h, m, n) then p.scoreMod(x, b, h, m, n) else NegInf)
  }

  /** A mask and a score_mod that answers minus infinity hide the same keys. */
  lemma MaskIsScoreMod(p: Problem, other: Problem, e: real -> real, b: int, h: int, m: int, out: seq<Ext>, lse: Ext)
    requires Valid(p) && MaskedByScore(p, other)
    ensures Valid(other) && (IsStored(p, e, b, h, m, out, lse) <==> IsStored(other, e, b, h, m, out, lse))
  {
    hide IsStored;
    forall n
      ensures RowScores(other, b, h, m)(n) == RowScores(p, b, h, m)(n)
    {
      SumEq(QkTerms(other, b, h, m, n), QkTerms(p, b, h, m, n), 0, p.dim);
      assert Qk(other, b, h, m, n) == Qk(p, b, h, m, n);
    }
    forall n, d
      ensures HeadValues(other, b, h)(n, d) == HeadValues(p, b, h)(n, d)
    {
      assert KvHead(other, h) == KvHead(p, h);
    }
    StoredOfEqualRows(p, other, e, b, h, m, out, lse);
  }

  // The plain and the causal kernel.

  /** Head h of p as a problem of examples/attention.py: no score_mod, no mask or the causal one. */
  ghost predicate IsPlain(p: Problem, h: int, f: A.Problem) {
    && p.kvHeads == p.heads
    && (forall x, b, m, n :: p.scoreMod(x, b, h, m, n) == Fin(x))
    && (forall b, m, n :: p.maskMod(b, h, m, n) <==> !f.causal || n <= m)
    && f.keys == p.keys && f.dim == p.dim && f.qkScale == p.scale * LOG_2_E
    && (forall b, m, d :: f.q(b, m, d) == p.query(b, h, m, d))
    && (forall b, n, d :: f.k(b, n, d) == p.key(b, h, n, d) && f.v(b, n, d) == p.value(b, h, n, d))
  }

  lemma ScaledTerm(q: real, c: real, k: real)
    ensures q * c * k == q * k * c
  {
  }

  lemma PlainScore(p: Problem, h: int, f: A.Problem, b: int, m: int, n: int)
    requires Valid(p) && IsPlain(p, h, f)
    ensures RowScores(p, b, h, m)(n) == A.RowScores(f, b, m)(n)
  {
    hide Sum, KvHead;
    OwnHead(p, h);
    forall d
      ensures A.QkTerms(f, b, m, n)(d) == QkTerms(p, b, h, m, n)(d) * f.qkScale
    {
      ScaledTerm(p.query(b, h, m, d), f.qkScale, p.key(b, h, n, d));
    }
    SumScale(QkTerms(p, b, h, m, n), A.QkTerms(f, b, m, n), f.qkScale, 0, p.dim);
    var dot := Sum(QkTerms(p, b, h, m, n), 0, p.dim);
    assert dot * (p.scale * LOG_2_E) == dot * p.scale * LOG_2_E;
    assert p.scoreMod(Qk(p, b, h, m, n), b, h, m, n) == Fin(dot * p.scale);
  }

  /**
   * Two kernels of the repository agree: without score_mod, the row of flex attention is the row of the
   * plain or causal attention kernel, its lse in natural instead of base-2 units.
   */
  lemma PlainIsAttention(p: Problem, h: int, f: A.Problem, e: real -> real, b: int, m: int, out: seq<Ext>, lse: Ext)
    requires Valid(p) && IsPlain(p, h, f) && IsExp(e) && 0 <= m
    ensures IsStored(p, e, b, h, m, out, lse) <==> A.IsSoftmax(f, e, b, m, out, Mul(lse, Fin(LOG_2_E)))
  {
    hide RowScores, A.RowScores, Numerator, IsExp;
    var s, t := RowScores(p, b, h, m), A.RowScores(f, b, m);
    OwnHead(p, h);
    forall n
      ensures s(n) == t(n)
    {
      PlainScore(p, h, f, b, m, n);
    }
    A.ScoresAreProper(f, b, m);
    A.KeyZero(f, b, m);
    NumeratorEq(e, s, One(), t, One(), p.keys);
    forall d
      ensures Numerator(e, s, Column(HeadValues(p, b, h), d), p.keys) == Numerator(e, t, Column(A.BatchValues(f, b), d), p.keys)
    {
      NumeratorEq(e, s, Column(HeadValues(p, b, h), d), t, Column(A.BatchValues(f, b), d), p.keys);
    }
  }
}
