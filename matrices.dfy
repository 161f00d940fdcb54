/**
 * Dense matrices and the column statistics the matrix layer uses. A matrix value
 * (`DMatrix` or `Array2` passed by value) is its shape and its rows; an `f64` is a
 * finite number or not (NaN and the infinities), and arithmetic is exact on reals.
 */
module Matrices {

  /** An `f64`: a finite value, or one that `is_finite` rejects. */
  datatype F64 = Finite(v: real) | NonFinite

  /** `if v.is_finite() { v } else { 0.0 }`. */
  function Sanitize(x: F64): (r: real)
    ensures x.Finite? ==> r == x.v
    ensures x.NonFinite? ==> r == 0.0
  {
    if x.Finite? then x.v else 0.0
  }

  /** A matrix of `nrows` rows of `ncols` entries, row by row. */
  datatype Mat<T> = Mat(nrows: nat, ncols: nat, rows: seq<seq<T>>)

  predicate Valid<T>(m: Mat<T>)
  {
    |m.rows| == m.nrows && forall i :: 0 <= i < |m.rows| ==> |m.rows[i]| == m.ncols
  }

  /** `DMatrix::zeros(r, c)` / `Array2::zeros((r, c))`. */
  function Zeros(r: nat, c: nat): (m: Mat<real>)
    ensures Valid(m) && m.nrows == r && m.ncols == c
    ensures forall i, j :: 0 <= i < r && 0 <= j < c ==> m.rows[i][j] == 0.0
  {
    Mat(r, c, seq(r, _ => seq(c, _ => 0.0)))
  }

  /** The current contents of a two-dimensional array as a matrix value. */
  function ToMat<T>(a: array2<T>): (m: Mat<T>)
    reads a
    ensures Valid(m) && m.nrows == a.Length0 && m.ncols == a.Length1
    ensures forall i, j :: 0 <= i < a.Length0 && 0 <= j < a.Length1 ==> m.rows[i][j] == a[i, j]
  {
    Mat(a.Length0, a.Length1,
        seq(a.Length0, i requires 0 <= i < a.Length0 reads a =>
          seq(a.Length1, j requires 0 <= j < a.Length1 reads a => a[i, j])))
  }

  /** Two matrices of one shape that agree in every cell are equal. */
  lemma MatEq<T>(a: Mat<T>, b: Mat<T>)
    requires Valid(a) && Valid(b) && a.nrows == b.nrows && a.ncols == b.ncols
    requires forall i, j :: 0 <= i < a.nrows && 0 <= j < a.ncols ==> a.rows[i][j] == b.rows[i][j]
    ensures a == b
  {
    forall i | 0 <= i < a.nrows
      ensures a.rows[i] == b.rows[i]
    {
    }
  }

  /** Column `j` from top to bottom. */
  function Column(m: Mat<real>, j: nat): (col: seq<real>)
    requires Valid(m) && j < m.ncols
    ensures |col| == m.nrows && forall i :: 0 <= i < m.nrows ==> col[i] == m.rows[i][j]
  {
    seq(m.nrows, i requires 0 <= i < m.nrows => m.rows[i][j])
  }

  /** Every entry replaced by its sanitised value. */
  function SanitizeMat(m: Mat<F64>): (r: Mat<real>)
    requires Valid(m)
    ensures Valid(r) && r.nrows == m.nrows && r.ncols == m.ncols
    ensures forall i, j :: 0 <= i < m.nrows && 0 <= j < m.ncols ==> r.rows[i][j] == Sanitize(m.rows[i][j])
  {
    Mat(m.nrows, m.ncols,
        seq(m.nrows, i requires 0 <= i < m.nrows =>
          seq(m.ncols, j requires 0 <= j < m.ncols => Sanitize(m.rows[i][j]))))
  }

  // ---- statistics of one column ----

  function Sum(xs: seq<real>): real
  {
    if |xs| == 0 then 0.0 else Sum(xs[..|xs| - 1]) + xs[|xs| - 1]
  }

  /** The mean; 0 for an empty column, as `nalgebra`'s `mean` gives. */
  function Mean(xs: seq<real>): real
  {
    if |xs| == 0 then 0.0 else Sum(xs) / (|xs| as real)
  }

  /** The sum of squared deviations from `m`. */
  function SumSqDev(xs: seq<real>, m: real): (r: real)
    ensures r >= 0.0
  {
    if |xs| == 0 then 0.0
    else
      SumSqDev(xs[..|xs| - 1], m) + Sq(xs[|xs| - 1] - m)
  }

  function Sq(d: real): (r: real)
    ensures r >= 0.0
  {
    d * d
  }

  lemma DivMulEq(p: real, a: real, c: real, n: real)
    requires n > 0.0 && p == a * c
    ensures p / n == (a / n) * c
  {
    DivMul(a, c, n);
  }

  /** Dividing a product by `n` is multiplying the quotient. */
  lemma DivMul(a: real, c: real, n: real)
    requires n > 0.0
    ensures (a * c) / n == (a / n) * c
  {
    var q := a / n;
    assert a == q * n;
    assert a * c == (q * c) * n;
  }

  /** The population variance (divided by the count); 0 for an empty column. */
  function PopVariance(xs: seq<real>): (v: real)
    ensures v >= 0.0
  {
    if |xs| == 0 then 0.0 else SumSqDev(xs, Mean(xs)) / (|xs| as real)
  }

  /** Every entry plus `v`. */
  function Shift(xs: seq<real>, v: real): (r: seq<real>)
    ensures |r| == |xs| && forall i :: 0 <= i < |xs| ==> r[i] == xs[i] + v
  {
    seq(|xs|, i requires 0 <= i < |xs| => xs[i] + v)
  }

  /** Every entry times `c`. */
  function Scale(xs: seq<real>, c: real): (r: seq<real>)
    ensures |r| == |xs| && forall i :: 0 <= i < |xs| ==> r[i] == xs[i] * c
  {
    seq(|xs|, i requires 0 <= i < |xs| => xs[i] * c)
  }

  lemma {:induction false} SumShift(xs: seq<real>, v: real)
    ensures Sum(Shift(xs, v)) == Sum(xs) + (|xs| as real) * v
  {
    if |xs| > 0 {
      var ys := Shift(xs, v);
      assert ys[..|ys| - 1] == Shift(xs[..|xs| - 1], v);
      SumShift(xs[..|xs| - 1], v);
    }
  }

  lemma {:induction false} SumScale(xs: seq<real>, c: real)
    ensures Sum(Scale(xs, c)) == Sum(xs) * c
  {
    if |xs| > 0 {
      var ys := Scale(xs, c);
      ScalePrefix(xs, c);
      SumScale(xs[..|xs| - 1], c);
    }
  }

  lemma ScalePrefix(xs: seq<real>, c: real)
    requires |xs| > 0
    ensures Scale(xs, c)[..|xs| - 1] == Scale(xs[..|xs| - 1], c)
  {
    var a, b := Scale(xs, c)[..|xs| - 1], Scale(xs[..|xs| - 1], c);
    assert |a| == |b|;
    forall i | 0 <= i < |a|
      ensures a[i] == b[i]
    {
    }
  }

  /** A scaled deviation squares to the squared deviation times `c * c`. */
  lemma SqScale(x: real, m: real, c: real)
    ensures Sq(x * c - m * c) == Sq(x - m) * (c * c)
  {
    var d := x - m;
    assert x * c - m * c == d * c;
    assert (d * c) * (d * c) == (d * d) * (c * c);
  }

  /** The squared deviations from `m`, entry by entry. */
  function SqDevs(xs: seq<real>, m: real): (r: seq<real>)
    ensures |r| == |xs| && forall i :: 0 <= i < |xs| ==> r[i] == Sq(xs[i] - m)
  {
    seq(|xs|, i requires 0 <= i < |xs| => Sq(xs[i] - m))
  }

  lemma {:induction false} SumSqDevIsSum(xs: seq<real>, m: real)
    ensures SumSqDev(xs, m) == Sum(SqDevs(xs, m))
  {
    if |xs| > 0 {
      var n := |xs| - 1;
      assert SqDevs(xs, m)[..n] == SqDevs(xs[..n], m);
      SumSqDevIsSum(xs[..n], m);
    }
  }

  /** The squared deviations of a scaled column are the old ones scaled by `c * c`. */
  lemma SqDevsScale(xs: seq<real>, m: real, c: real)
    ensures SqDevs(Scale(xs, c), m * c) == Scale(SqDevs(xs, m), c * c)
  {
    var ys, ds := Scale(xs, c), SqDevs(xs, m);
    var l, r := SqDevs(ys, m * c), Scale(ds, c * c);
    forall i | 0 <= i < |xs|
      ensures l[i] == r[i]
    {
      assert l[i] == Sq(ys[i] - m * c) && ys[i] == xs[i] * c;
      assert r[i] == ds[i] * (c * c) && ds[i] == Sq(xs[i] - m);
      SqScale(xs[i], m, c);
    }
  }

  /** The sum of a scaled column's squared deviations, as a sum of a scaled sequence. */
  lemma SumSqDevScaledSum(xs: seq<real>, m: real, c: real)
    ensures SumSqDev(Scale(xs, c), m * c) == Sum(Scale(SqDevs(xs, m), c * c))
  {
    SqDevsScale(xs, m, c);
    SumSqDevIsSum(Scale(xs, c), m * c);
  }

  /** Scaling a column and its centre by `c` scales the sum of squared deviations by `c * c`. */
  lemma SumSqDevScale(xs: seq<real>, m: real, c: real)
    ensures SumSqDev(Scale(xs, c), m * c) == SumSqDev(xs, m) * (c * c)
  {
    SumSqDevScaledSum(xs, m, c);
    SumScale(SqDevs(xs, m), c * c);
    SumSqDevIsSum(xs, m);
  }

  lemma {:induction false} SumSqDevShift(xs: seq<real>, m: real, v: real)
    ensures SumSqDev(Shift(xs, v), m + v) == SumSqDev(xs, m)
  {
    if |xs| > 0 {
      var ys := Shift(xs, v);
      assert ys[..|ys| - 1] == Shift(xs[..|xs| - 1], v);
      SumSqDevShift(xs[..|xs| - 1], m, v);
    }
  }

  /** Adding a constant moves the mean by that constant and leaves the variance unchanged. */
  lemma ShiftStatistics(xs: seq<real>, v: real)
    requires |xs| > 0
    ensures Mean(Shift(xs, v)) == Mean(xs) + v
    ensures PopVariance(Shift(xs, v)) == PopVariance(xs)
  {
    var n := |xs| as real;
    SumShift(xs, v);
    assert Mean(Shift(xs, v)) == (Sum(xs) + n * v) / n;
    assert (Sum(xs) + n * v) / n == Sum(xs) / n + v;
    SumSqDevShift(xs, Mean(xs), v);
  }

  /** Scaling by `c` scales the mean by `c`. */
  lemma ScaleMean(xs: seq<real>, c: real)
    requires |xs| > 0
    ensures Mean(Scale(xs, c)) == Mean(xs) * c
  {
    var n := |xs| as real;
    var ys := Scale(xs, c);
    SumScale(xs, c);
    var sx, sy := Sum(xs), Sum(ys);
    assert Mean(ys) == sy / n && Mean(xs) == sx / n;
    DivMulEq(sy, sx, c, n);
  }

  /** Scaling by `c` scales the population variance by `c * c`. */
  lemma ScaleVariance(xs: seq<real>, c: real)
    requires |xs| > 0
    ensures PopVariance(Scale(xs, c)) == PopVariance(xs) * (c * c)
  {
    var ys, mx := Scale(xs, c), Mean(xs);
    ScaleMean(xs, c);
    VarianceAbout(ys, mx * c);
    VarianceAbout(xs, mx);
    SumSqDevScale(xs, mx, c);
    QuotientScale(PopVariance(xs), PopVariance(ys), SumSqDev(xs, mx), SumSqDev(ys, mx * c),
                  |xs| as real, |ys| as real, c * c);
  }

  /** The population variance is the sum of squared deviations from the mean over the count. */
  lemma VarianceAbout(xs: seq<real>, m: real)
    requires |xs| > 0 && m == Mean(xs)
    ensures PopVariance(xs) == SumSqDev(xs, m) / (|xs| as real)
  {
  }

  /** Centring a column and then scaling it by `c` multiplies its variance by `c * c`. */
  lemma CenteredScaledVariance(xs: seq<real>, c: real)
    requires |xs| > 0
    ensures PopVariance(Scale(Shift(xs, -Mean(xs)), c)) == PopVariance(xs) * (c * c)
  {
    var centred := Shift(xs, -Mean(xs));
    ShiftStatistics(xs, -Mean(xs));
    ScaleVariance(centred, c);
    SameFactor(PopVariance(Scale(centred, c)), PopVariance(centred), PopVariance(xs), c * c);
  }

  lemma SameFactor(a: real, b: real, v: real, k: real)
    requires a == b * k && b == v
    ensures a == v * k
  {
  }

  /** Equal divisors carry a factor `k` between dividends over to the quotients. */
  lemma QuotientScale(v: real, w: real, a: real, b: real, n: real, n': real, k: real)
    requires n > 0.0 && n' == n && v == a / n && w == b / n' && b == a * k
    ensures w == v * k
  {
    DivMul(a, k, n);
  }

  /** A column whose entries are all equal has that mean and no variance. */
  lemma {:induction false} ConstantStatistics(xs: seq<real>, v: real)
    requires |xs| > 0 && forall i :: 0 <= i < |xs| ==> xs[i] == v
    ensures Mean(xs) == v && PopVariance(xs) == 0.0
  {
    ConstantSum(xs, v);
    ConstantSumSqDev(xs, v);
  }

  lemma {:induction false} ConstantSum(xs: seq<real>, v: real)
    requires forall i :: 0 <= i < |xs| ==> xs[i] == v
    ensures Sum(xs) == (|xs| as real) * v
  {
    if |xs| > 0 {
      ConstantSum(xs[..|xs| - 1], v);
    }
  }

  lemma {:induction false} ConstantSumSqDev(xs: seq<real>, v: real)
    requires forall i :: 0 <= i < |xs| ==> xs[i] == v
    ensures SumSqDev(xs, v) == 0.0
  {
    if |xs| > 0 {
      ConstantSumSqDev(xs[..|xs| - 1], v);
    }
  }

  lemma SqIsProduct(d: real)
    ensures Sq(d) == d * d
  {
    if d < 0.0 {
      assert (-d) * (-d) == d * d;
    }
  }

  /** `ss += diff * diff` over the rows, `diff` the entry of column `j` minus `mean`. */
  method ColumnSumSqDev(m: Mat<real>, j: nat, mean: real) returns (ss: real)
    requires Valid(m) && j < m.ncols
    ensures ss == SumSqDev(Column(m, j), mean)
  {
    ghost var col := Column(m, j);
    ss := 0.0;
    var i := 0;
    while i < m.nrows
      invariant 0 <= i <= m.nrows
      invariant ss == SumSqDev(col[..i], mean)
    {
      var diff := m.rows[i][j] - mean;
      assert col[..i + 1][..i] == col[..i];
      SqIsProduct(diff);
      ss := ss + diff * diff;
      i := i + 1;
    }
    assert col[..m.nrows] == col;
  }
}
