// Finite sums of reals over an integer range, the meaning of every reduction
// (torch.sum, a dot product, an accumulator loop) in the kernels.
module Sums {
  function Sum(f: int -> real, lo: int, hi: int): real
    decreases hi - lo
  {
    if hi <= lo then 0.0 else Sum(f, lo, hi - 1) + f(hi - 1)
  }

  lemma {:induction false} SumSplit(f: int -> real, lo: int, mid: int, hi: int)
    requires lo <= mid <= hi
    ensures Sum(f, lo, hi) == Sum(f, lo, mid) + Sum(f, mid, hi)
    decreases hi - mid
  {
    if mid < hi {
      SumSplit(f, lo, mid, hi - 1);
    }
  }

  lemma SumNext(f: int -> real, lo: int, hi: int)
    requires lo <= hi
    ensures Sum(f, lo, hi + 1) == Sum(f, lo, hi) + f(hi)
  {
  }

  lemma {:induction false} SumEq(f: int -> real, g: int -> real, lo: int, hi: int)
    requires forall i :: lo <= i < hi ==> f(i) == g(i)
    ensures Sum(f, lo, hi) == Sum(g, lo, hi)
    decreases hi - lo
  {
    if lo < hi {
      SumEq(f, g, lo, hi - 1);
    }
  }

  lemma {:induction false} SumZero(f: int -> real, lo: int, hi: int)
    requires forall i :: lo <= i < hi ==> f(i) == 0.0
    ensures Sum(f, lo, hi) == 0.0
    decreases hi - lo
  {
    if lo < hi {
      SumZero(f, lo, hi - 1);
    }
  }

  lemma {:induction false} SumAdd(f: int -> real, g: int -> real, h: int -> real, lo: int, hi: int)
    requires forall i :: lo <= i < hi ==> h(i) == f(i) + g(i)
    ensures Sum(h, lo, hi) == Sum(f, lo, hi) + Sum(g, lo, hi)
    decreases hi - lo
  {
    if lo < hi {
      SumAdd(f, g, h, lo, hi - 1);
    }
  }

  lemma {:induction false} SumScale(f: int -> real, g: int -> real, c: real, lo: int, hi: int)
    requires forall i :: lo <= i < hi ==> g(i) == f(i) * c
    ensures Sum(g, lo, hi) == Sum(f, lo, hi) * c
    decreases hi - lo
  {
    if lo < hi {
      SumScale(f, g, c, lo, hi - 1);
    }
  }

  lemma {:induction false} SumShift(f: int -> real, g: int -> real, lo: int, hi: int, d: int)
    requires forall i :: lo <= i < hi ==> g(i) == f(i + d)
    ensures Sum(g, lo, hi) == Sum(f, lo + d, hi + d)
    decreases hi - lo
  {
    if lo < hi {
      SumShift(f, g, lo, hi - 1, d);
    }
  }

  /** Only index k contributes. */
  lemma SumSingle(f: int -> real, lo: int, hi: int, k: int)
    requires lo <= k < hi
    requires forall i :: lo <= i < hi && i != k ==> f(i) == 0.0
    ensures Sum(f, lo, hi) == f(k)
  {
    SumSplit(f, lo, k, hi);
    SumSplit(f, k, k + 1, hi);
    SumZero(f, lo, k);
    SumZero(f, k + 1, hi);
    assert Sum(f, k, k + 1) == Sum(f, k, k) + f(k);
  }

  /** Only the indices of a window contribute. */
  lemma SumWindow(f: int -> real, lo: int, first: int, last: int, hi: int)
    requires lo <= first <= last <= hi
    requires forall i :: lo <= i < hi && !(first <= i < last) ==> f(i) == 0.0
    ensures Sum(f, lo, hi) == Sum(f, first, last)
  {
    SumSplit(f, lo, first, hi);
    SumSplit(f, first, last, hi);
    SumZero(f, lo, first);
    SumZero(f, last, hi);
  }

  lemma {:induction false} SumCombine(f: int -> real, g: int -> real, h: int -> real, total: int -> real, a: real, b: real,
                                      lo: int, hi: int)
    requires forall i :: lo <= i < hi ==> total(i) == f(i) * a + g(i) * b + h(i)
    ensures Sum(total, lo, hi) == Sum(f, lo, hi) * a + Sum(g, lo, hi) * b + Sum(h, lo, hi)
    decreases hi - lo
  {
    if lo < hi {
      SumCombine(f, g, h, total, a, b, lo, hi - 1);
    }
  }

  /** A window of scaled terms. */
  lemma SumScaledWindow(f: int -> real, g: int -> real, c: real, first: int, last: int, hi: int)
    requires 0 <= first <= last <= hi
    requires forall t :: 0 <= t < hi ==> g(t) == if first <= t < last then f(t) * c else 0.0
    ensures Sum(g, 0, hi) == Sum(f, first, last) * c
  {
    SumWindow(g, 0, first, last, hi);
    SumScale(f, g, c, first, last);
  }

  /** Changing one term changes the sum by the difference of that term. */
  lemma SumUpdate(f: int -> real, g: int -> real, lo: int, hi: int, k: int)
    requires lo <= k < hi
    requires forall i :: lo <= i < hi && i != k ==> g(i) == f(i)
    ensures Sum(g, lo, hi) == Sum(f, lo, hi) - f(k) + g(k)
  {
    var d := (i: int) => g(i) - f(i);
    SumAdd(f, d, g, lo, hi);
    SumSingle(d, lo, hi, k);
  }

  function RowOf(terms: (int, int) -> real, i: int): int -> real {
    j => terms(i, j)
  }

  function ColumnOf(terms: (int, int) -> real, j: int): int -> real {
    i => terms(i, j)
  }

  /** The order of a double sum does not matter. */
  lemma {:induction false} SumSwap(terms: (int, int) -> real, rows: int -> real, columns: int -> real,
                                   top: int, bottom: int, left: int, right: int)
    requires forall i :: top <= i < bottom ==> rows(i) == Sum(RowOf(terms, i), left, right)
    requires forall j :: left <= j < right ==> columns(j) == Sum(ColumnOf(terms, j), top, bottom)
    ensures Sum(rows, top, bottom) == Sum(columns, left, right)
    decreases bottom - top
  {
    if bottom <= top {
      SumZero(columns, left, right);
    } else {
      var last := bottom - 1;
      var shorter := (j: int) => Sum(ColumnOf(terms, j), top, last);
      SumSwap(terms, rows, shorter, top, last, left, right);
      forall j | left <= j < right
        ensures columns(j) == shorter(j) + RowOf(terms, last)(j)
      {
        assert Sum(ColumnOf(terms, j), top, bottom) == Sum(ColumnOf(terms, j), top, last) + ColumnOf(terms, j)(last);
      }
      SumAdd(shorter, RowOf(terms, last), columns, left, right);
    }
  }

  function Times(f: int -> real, g: int -> real): int -> real {
    i => f(i) * g(i)
  }

  /** b . z, for a matrix b with columns 0 <= j < n. */
  function MatrixVector(b: (int, int) -> real, z: int -> real, n: int): int -> real {
    i => Sum(Times(RowOf(b, i), z), 0, n)
  }

  lemma Regroup(a: real, b: real, c: real)
    ensures a * b * c == b * c * a == a * (b * c)
  {
  }

  /** (a . b) . z is a . (b . z), for vectors a and z and a matrix b. */
  lemma SumAssociates(a: int -> real, b: (int, int) -> real, z: int -> real, ab: int -> real, bz: int -> real,
                      top: int, bottom: int, left: int, right: int)
    requires forall j :: left <= j < right ==> ab(j) == Sum(Times(a, ColumnOf(b, j)), top, bottom)
    requires forall i :: top <= i < bottom ==> bz(i) == Sum(Times(RowOf(b, i), z), left, right)
    ensures Sum(Times(ab, z), left, right) == Sum(Times(a, bz), top, bottom)
  {
    hide Sum;
    var terms := (i: int, j: int) => a(i) * b(i, j) * z(j);
    forall i | top <= i < bottom
      ensures Times(a, bz)(i) == Sum(RowOf(terms, i), left, right)
    {
      forall j
        ensures RowOf(terms, i)(j) == Times(RowOf(b, i), z)(j) * a(i)
      {
        Regroup(a(i), b(i, j), z(j));
      }
      SumScale(Times(RowOf(b, i), z), RowOf(terms, i), a(i), left, right);
    }
    forall j | left <= j < right
      ensures Times(ab, z)(j) == Sum(ColumnOf(terms, j), top, bottom)
    {
      SumScale(Times(a, ColumnOf(b, j)), ColumnOf(terms, j), z(j), top, bottom);
    }
    SumSwap(terms, Times(a, bz), Times(ab, z), top, bottom, left, right);
  }

  /** The dot products of the rows of two matrices. */
  function RowDots(f: (int, int) -> real, g: (int, int) -> real, dim: int): int -> real {
    i => Sum(Times(RowOf(f, i), RowOf(g, i)), 0, dim)
  }

  /** Row i of x against row j of y, weighted. */
  function Weighted(w: (int, int) -> real, x: (int, int) -> real, y: (int, int) -> real, dim: int): (int, int) -> real {
    (i, j) => w(i, j) * Sum(Times(RowOf(x, i), RowOf(y, j)), 0, dim)
  }

  function RowSums(terms: (int, int) -> real, left: int, right: int): int -> real {
    i => Sum(RowOf(terms, i), left, right)
  }

  lemma TimesCommutes(f: int -> real, g: int -> real, lo: int, hi: int)
    ensures Sum(Times(f, g), lo, hi) == Sum(Times(g, f), lo, hi)
  {
    SumEq(Times(f, g), Times(g, f), lo, hi);
  }

  /** One row of RowsAgainstProduct. */
  lemma RowAgainstProduct(x: (int, int) -> real, wy: (int, int) -> real, w: (int, int) -> real, y: (int, int) -> real,
                          c: real, i: int, left: int, right: int, dim: int)
    requires forall d :: 0 <= d < dim ==> wy(i, d) == Sum(Times(RowOf(w, i), ColumnOf(y, d)), left, right) * c
    ensures RowDots(x, wy, dim)(i) == RowSums(Weighted(w, x, y, dim), left, right)(i) * c
  {
    hide Sum;
    var plain := (d: int) => Sum(Times(RowOf(w, i), ColumnOf(y, d)), left, right);
    var dots := (j: int) => Sum(Times(RowOf(x, i), RowOf(y, j)), 0, dim);
    forall j
      ensures dots(j) == Sum(Times(RowOf(y, j), RowOf(x, i)), 0, dim)
    {
      TimesCommutes(RowOf(x, i), RowOf(y, j), 0, dim);
    }
    SumAssociates(RowOf(w, i), y, RowOf(x, i), plain, dots, left, right, 0, dim);
    SumEq(RowOf(Weighted(w, x, y, dim), i), Times(RowOf(w, i), dots), left, right);
    forall d | 0 <= d < dim
      ensures Times(RowOf(x, i), RowOf(wy, i))(d) == Times(plain, RowOf(x, i))(d) * c
    {
      Regroup(x(i, d), plain(d), c);
    }
    SumScale(Times(plain, RowOf(x, i)), Times(RowOf(x, i), RowOf(wy, i)), c, 0, dim);
  }

  /** The rows of x against those of the scaled product w . y. */
  lemma RowsAgainstProduct(x: (int, int) -> real, wy: (int, int) -> real, w: (int, int) -> real, y: (int, int) -> real,
                           c: real, top: int, bottom: int, left: int, right: int, dim: int)
    requires forall i, d :: top <= i < bottom && 0 <= d < dim
                            ==> wy(i, d) == Sum(Times(RowOf(w, i), ColumnOf(y, d)), left, right) * c
    ensures Sum(RowDots(x, wy, dim), top, bottom) == Sum(RowSums(Weighted(w, x, y, dim), left, right), top, bottom) * c
  {
    hide *;
    forall i | top <= i < bottom
      ensures RowDots(x, wy, dim)(i) == RowSums(Weighted(w, x, y, dim), left, right)(i) * c
    {
      RowAgainstProduct(x, wy, w, y, c, i, left, right, dim);
    }
    SumScale(RowSums(Weighted(w, x, y, dim), left, right), RowDots(x, wy, dim), c, top, bottom);
  }

  function Transposed(terms: (int, int) -> real): (int, int) -> real {
    (i, j) => terms(j, i)
  }

  /** Weighting by a transposed matrix and exchanging the operands leaves the double sum. */
  lemma WeightedTransposed(w: (int, int) -> real, x: (int, int) -> real, y: (int, int) -> real, dim: int,
                           top: int, bottom: int, left: int, right: int)
    ensures Sum(RowSums(Weighted(w, x, y, dim), left, right), top, bottom)
         == Sum(RowSums(Weighted(Transposed(w), y, x, dim), top, bottom), left, right)
  {
    hide Sum;
    var terms, other := Weighted(w, x, y, dim), Weighted(Transposed(w), y, x, dim);
    forall j | left <= j < right
      ensures RowSums(other, top, bottom)(j) == Sum(ColumnOf(terms, j), top, bottom)
    {
      forall i
        ensures RowOf(other, j)(i) == ColumnOf(terms, j)(i)
      {
        TimesCommutes(RowOf(x, i), RowOf(y, j), 0, dim);
      }
      SumEq(RowOf(other, j), ColumnOf(terms, j), top, bottom);
    }
    SumSwap(terms, RowSums(terms, left, right), RowSums(other, top, bottom), top, bottom, left, right);
  }
}
