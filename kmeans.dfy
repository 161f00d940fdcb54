/**
 * The deterministic preparation around the K-means fit in `MyMmMatrix::kmeans_clusters`
 * (src/ops/multi_type_mat.rs): the early exits, sanitising, standardising every column
 * with a guarded divisor, the heuristic number of clusters, and the `n x 1` label
 * column. The square root and the K-means fit itself are parameters.
 */
module KMeans {
  import opened Wrappers
  import opened Matrices

  /** A standard deviation at most this is replaced by the divisor 1. */
  const STD_EPS: real := 0.000000000001

  /** The largest number of clusters the heuristic picks. */
  const MAX_CLUSTERS: nat := 8

  // ---- the number of clusters ----

  /**
   * `r` is `sqrt(n)` rounded to the nearest integer: `r - 1/2 < sqrt(n) < r + 1/2`,
   * which on integers reads `r*r - r < n <= r*r + r` (no `n` lies on a half).
   */
  predicate IsRoundSqrt(n: nat, r: nat)
  {
    r * r - r < n <= r * r + r
  }

  function RoundSqrtFrom(n: nat, r: nat): (s: nat)
    requires 1 <= r && r * r - r < n
    ensures IsRoundSqrt(n, s)
    decreases n - r
  {
    if n <= r * r + r then r
    else
      assert r <= r * r;
      assert (r + 1) * (r + 1) - (r + 1) == r * r + r;
      RoundSqrtFrom(n, r + 1)
  }

  /** `(n as f64).sqrt().round()`, for `n >= 1`. */
  function RoundSqrt(n: nat): (r: nat)
    requires n >= 1
    ensures IsRoundSqrt(n, r)
  {
    RoundSqrtFrom(n, 1)
  }

  /** Past a rounded root the window moves up: `s > r` puts `s*s - s` at or above `r*r + r`. */
  lemma WindowsOrdered(r: nat, s: nat)
    ensures r < s ==> s * s - s >= r * r + r
  {
    if r < s {
      var t := s - r - 1;
      assert s == r + 1 + t;
      assert s * s - s == (r + 1 + t) * (r + t);
      assert (r + 1 + t) * (r + t) == r * r + r + t * (2 * r + 1 + t);
      assert t * (2 * r + 1 + t) >= 0;
    }
  }

  /** Each `n >= 1` has exactly one rounded square root. */
  lemma RoundSqrtUnique(n: nat, r: nat, s: nat)
    requires IsRoundSqrt(n, r) && IsRoundSqrt(n, s)
    ensures r == s
  {
    WindowsOrdered(r, s);
    WindowsOrdered(s, r);
  }

  /** `RoundSqrt(n)` is the integer nearest to the real square root of `n`. */
  lemma RoundSqrtNearest(n: nat)
    requires n >= 1
    ensures var r := RoundSqrt(n) as real;
      (r - 0.5) * (r - 0.5) < n as real < (r + 0.5) * (r + 0.5)
  {
    var k := RoundSqrt(n);
    var r := k as real;
    assert (k * k) as real == r * r;
    assert (r - 0.5) * (r - 0.5) == r * r - r + 0.25;
    assert (r + 0.5) * (r + 0.5) == r * r + r + 0.25;
  }

  function Min(a: nat, b: nat): nat
  {
    if a <= b then a else b
  }

  /** `x.clamp(lo, hi)`. */
  function Clamp(x: nat, lo: nat, hi: nat): (r: nat)
    requires lo <= hi
    ensures lo <= r <= hi
    ensures lo <= x <= hi ==> r == x
  {
    if x < lo then lo else if x > hi then hi else x
  }

  /** `k = 1` for at most one sample, else `round(sqrt n)` clamped into `[2, min(n, 8)]`. */
  function KFor(n: nat): (k: nat)
    ensures n <= 1 ==> k == 1
    ensures n >= 2 ==> 2 <= k <= Min(n, MAX_CLUSTERS)
  {
    if n <= 1 then 1 else Clamp(RoundSqrt(n), 2, Min(n, MAX_CLUSTERS))
  }

  /** Any rounded root of `n` determines `k`: the heuristic does not depend on how it is found. */
  lemma KForIsClampedRoot(n: nat, r: nat)
    requires n >= 2 && IsRoundSqrt(n, r)
    ensures KFor(n) == Clamp(r, 2, Min(n, MAX_CLUSTERS))
  {
    RoundSqrtUnique(n, r, RoundSqrt(n));
  }

  /** From 57 samples on (the first `n` whose rounded root is 8) `k` is 8. */
  lemma KForLarge(n: nat)
    requires n >= 57
    ensures KFor(n) == MAX_CLUSTERS
  {
    var r := RoundSqrt(n);
    WindowsOrdered(r, 8);
    WindowsOrdered(7, r);
  }

  /** Up to 6 samples (rounded root at most 2) `k` is 2. */
  lemma KForSmall(n: nat)
    requires 2 <= n <= 6
    ensures KFor(n) == 2
  {
    var r := RoundSqrt(n);
    WindowsOrdered(2, r);
  }

  // ---- standardising ----

  /** The divisor of a column: its standard deviation when finite and above 1e-12, else 1. */
  function Divisor(std: F64): (s: real)
    ensures s > 0.0
    ensures std.Finite? && std.v > STD_EPS ==> s == std.v
    ensures !(std.Finite? && std.v > STD_EPS) ==> s == 1.0
  {
    if std.Finite? && std.v > STD_EPS then std.v else 1.0
  }

  /** The divisors of all columns, `sqrt` standing for `f64::sqrt`. */
  function Divisors(m: Mat<real>, sqrt: real -> F64): (r: seq<real>)
    requires Valid(m)
    ensures |r| == m.ncols
    ensures forall j :: 0 <= j < m.ncols ==> r[j] == Divisor(sqrt(PopVariance(Column(m, j)))) && r[j] > 0.0
  {
    seq(m.ncols, j requires 0 <= j < m.ncols => Divisor(sqrt(PopVariance(Column(m, j)))))
  }

  /** Every entry minus its column mean, divided by its column divisor. */
  function Standardize(m: Mat<real>, sqrt: real -> F64): (r: Mat<real>)
    requires Valid(m)
    ensures Valid(r) && r.nrows == m.nrows && r.ncols == m.ncols
    ensures forall i, j :: 0 <= i < m.nrows && 0 <= j < m.ncols ==>
      r.rows[i][j] == (m.rows[i][j] - Mean(Column(m, j))) / Divisors(m, sqrt)[j]
  {
    var divisors := Divisors(m, sqrt);
    Mat(m.nrows, m.ncols,
        seq(m.nrows, i requires 0 <= i < m.nrows =>
          seq(m.ncols, j requires 0 <= j < m.ncols => (m.rows[i][j] - Mean(Column(m, j))) / divisors[j])))
  }

  /** A standardised column is the column shifted by minus its mean and scaled by one over its divisor. */
  lemma StandardizedColumn(m: Mat<real>, sqrt: real -> F64, j: nat)
    requires Valid(m) && j < m.ncols
    ensures var col := Column(m, j);
      Column(Standardize(m, sqrt), j) == Scale(Shift(col, -Mean(col)), 1.0 / Divisors(m, sqrt)[j])
  {
    var col := Column(m, j);
    var a, b := Column(Standardize(m, sqrt), j), Scale(Shift(col, -Mean(col)), 1.0 / Divisors(m, sqrt)[j]);
    forall i | 0 <= i < m.nrows
      ensures a[i] == b[i]
    {
      StandardizedEntry(m, sqrt, j, i);
    }
  }

  lemma StandardizedEntry(m: Mat<real>, sqrt: real -> F64, j: nat, i: nat)
    requires Valid(m) && j < m.ncols && i < m.nrows
    ensures var col := Column(m, j);
      Column(Standardize(m, sqrt), j)[i] == Scale(Shift(col, -Mean(col)), 1.0 / Divisors(m, sqrt)[j])[i]
  {
    StandardizedAt(m, sqrt, j, i);
    CenteredScaledAt(Column(m, j), i, Divisors(m, sqrt)[j]);
  }

  lemma StandardizedAt(m: Mat<real>, sqrt: real -> F64, j: nat, i: nat)
    requires Valid(m) && j < m.ncols && i < m.nrows
    ensures Column(Standardize(m, sqrt), j)[i] == (Column(m, j)[i] - Mean(Column(m, j))) / Divisors(m, sqrt)[j]
  {
  }

  lemma CenteredScaledAt(col: seq<real>, i: nat, s: real)
    requires i < |col| && s > 0.0
    ensures Scale(Shift(col, -Mean(col)), 1.0 / s)[i] == (col[i] - Mean(col)) / s
  {
    var mean := Mean(col);
    var shifted := Shift(col, -mean);
    assert Scale(shifted, 1.0 / s)[i] == shifted[i] * (1.0 / s);
    DivAsScale(col[i], mean, s);
  }

  lemma DivAsScale(x: real, mean: real, s: real)
    requires s > 0.0
    ensures (x - mean) / s == (x + -mean) * (1.0 / s)
  {
  }

  /**
   * Every standardised column has mean 0, and a column whose divisor falls back to 1
   * is only centred.
   */
  lemma StandardizedStatistics(m: Mat<real>, sqrt: real -> F64, j: nat)
    requires Valid(m) && j < m.ncols && m.nrows > 0
    ensures Mean(Column(Standardize(m, sqrt), j)) == 0.0
    ensures var col := Column(m, j);
      Divisors(m, sqrt)[j] == 1.0 ==> Column(Standardize(m, sqrt), j) == Shift(col, -Mean(col))
  {
    var col, s := Column(m, j), Divisors(m, sqrt)[j];
    StandardizedColumn(m, sqrt, j);
    var centred := Shift(col, -Mean(col));
    ShiftStatistics(col, -Mean(col));
    ScaleMean(centred, 1.0 / s);
    if s == 1.0 {
      assert Scale(centred, 1.0 / s) == centred;
    }
  }

  /** Standardising divides a column's variance by the square of its divisor. */
  lemma StandardizedVariance(m: Mat<real>, sqrt: real -> F64, j: nat)
    requires Valid(m) && j < m.ncols && m.nrows > 0
    ensures var v, d := PopVariance(Column(m, j)), Divisors(m, sqrt)[j];
      PopVariance(Column(Standardize(m, sqrt), j)) == v * ((1.0 / d) * (1.0 / d))
  {
    StandardizedColumn(m, sqrt, j);
    CenteredScaledVariance(Column(m, j), 1.0 / Divisors(m, sqrt)[j]);
  }

  /** A column whose `sqrt` returns a true square root `r` above 1e-12 has variance 1 once standardised. */
  lemma StandardizedUnitVariance(m: Mat<real>, sqrt: real -> F64, j: nat, r: real)
    requires Valid(m) && j < m.ncols && m.nrows > 0
    requires sqrt(PopVariance(Column(m, j))) == Finite(r) && r > STD_EPS
    requires r * r == PopVariance(Column(m, j))
    ensures PopVariance(Column(Standardize(m, sqrt), j)) == 1.0
  {
    var d := Divisors(m, sqrt)[j];
    StandardizedVariance(m, sqrt, j);
    UnitQuotient(PopVariance(Column(Standardize(m, sqrt), j)), PopVariance(Column(m, j)), d, r);
  }

  lemma UnitQuotient(w: real, v: real, d: real, r: real)
    requires d > 0.0 && d == r && v == r * r && w == v * ((1.0 / d) * (1.0 / d))
    ensures w == 1.0
  {
    assert d * (1.0 / d) == 1.0;
    assert (d * d) * ((1.0 / d) * (1.0 / d)) == (d * (1.0 / d)) * (d * (1.0 / d));
  }

  // ---- the whole function ----

  /** `Array2::from_shape_fn((n, 1), |(i, _)| memberships[i] as f64)`. */
  function LabelColumn(n: nat, labels: seq<nat>): (r: Mat<real>)
    ensures Valid(r) && r.nrows == n && r.ncols == 1
  {
    Mat(n, 1, seq(n, i requires 0 <= i < n => [if i < |labels| then labels[i] as real else 0.0]))
  }

  /** What the K-means fit and prediction promise: one label below `k` per sample. */
  ghost predicate FitLabels(fit: (Mat<real>, nat) -> Result<seq<nat>, string>)
  {
    forall m: Mat<real>, k: nat {:trigger fit(m, k)} :: Valid(m) && fit(m, k).Ok? ==>
      |fit(m, k).value| == m.nrows && forall i :: 0 <= i < m.nrows ==> fit(m, k).value[i] < k
  }

  /** The value `kmeans_clusters` returns. */
  function KMeansResult(x: Mat<F64>, sqrt: real -> F64,
                        fit: (Mat<real>, nat) -> Result<seq<nat>, string>): Result<Mat<real>, string>
    requires Valid(x)
  {
    if x.nrows == 0 then Ok(Zeros(0, 1))
    else if x.ncols == 0 then Ok(Zeros(x.nrows, 1))
    else
      var fitted := fit(Standardize(SanitizeMat(x), sqrt), KFor(x.nrows));
      if fitted.Err? then Err("KMeans fit failed: " + fitted.error)
      else Ok(LabelColumn(x.nrows, fitted.value))
  }

  /** `kmeans_clusters`: the means, divisors and standardisation loops, then the fit. */
  method KMeansClusters(x: Mat<F64>, sqrt: real -> F64,
                        fit: (Mat<real>, nat) -> Result<seq<nat>, string>)
    returns (r: Result<Mat<real>, string>)
    requires Valid(x)
    ensures r == KMeansResult(x, sqrt, fit)
  {
    var n, d := x.nrows, x.ncols;
    if n == 0 {
      return Ok(Zeros(0, 1));
    }
    if d == 0 {
      return Ok(Zeros(n, 1));
    }
    var san := SanitizeMat(x);
    var records := new real[n, d]((i, j) requires 0 <= i < n && 0 <= j < d => san.rows[i][j]);
    MatEq(ToMat(records), san);

    var means := ColumnMeans(san);
    var stds := ColumnDivisors(san, sqrt, means);
    StandardizeInPlace(records, san, sqrt, means, stds);

    var k := KFor(n);
    var fitted := fit(ToMat(records), k);
    if fitted.Err? {
      return Err("KMeans fit failed: " + fitted.error);
    }
    r := Ok(LabelColumn(n, fitted.value));
  }

  /** `means[j] = records.column(j).sum() / n`. */
  method ColumnMeans(m: Mat<real>) returns (means: seq<real>)
    requires Valid(m) && m.nrows > 0
    ensures |means| == m.ncols && forall c :: 0 <= c < m.ncols ==> means[c] == Mean(Column(m, c))
  {
    means := [];
    var j := 0;
    while j < m.ncols
      invariant 0 <= j <= m.ncols && |means| == j
      invariant forall c :: 0 <= c < j ==> means[c] == Mean(Column(m, c))
    {
      means := means + [Sum(Column(m, j)) / (m.nrows as real)];
      j := j + 1;
    }
  }

  /** `stds[j]`: the guarded square root of `ss / n`, `ss` summed over the column's squared deviations. */
  method ColumnDivisors(m: Mat<real>, sqrt: real -> F64, means: seq<real>) returns (stds: seq<real>)
    requires Valid(m) && m.nrows > 0
    requires |means| == m.ncols && forall c :: 0 <= c < m.ncols ==> means[c] == Mean(Column(m, c))
    ensures stds == Divisors(m, sqrt)
  {
    stds := [];
    var j := 0;
    while j < m.ncols
      invariant 0 <= j <= m.ncols && |stds| == j
      invariant forall c :: 0 <= c < j ==> stds[c] == Divisors(m, sqrt)[c]
    {
      var ss := ColumnSumSqDev(m, j, means[j]);
      var variance := ss / (m.nrows as real);
      assert variance == PopVariance(Column(m, j));
      stds := stds + [Divisor(sqrt(variance))];
      j := j + 1;
    }
  }

  /** `records[(i, j)] = (records[(i, j)] - means[j]) / stds[j]`, row by row. */
  method StandardizeInPlace(records: array2<real>, m: Mat<real>, sqrt: real -> F64, means: seq<real>, stds: seq<real>)
    requires Valid(m) && ToMat(records) == m
    requires |means| == m.ncols && forall c :: 0 <= c < m.ncols ==> means[c] == Mean(Column(m, c))
    requires stds == Divisors(m, sqrt)
    modifies records
    ensures ToMat(records) == Standardize(m, sqrt)
  {
    var n, d := records.Length0, records.Length1;
    ghost var expected := Standardize(m, sqrt);
    var i := 0;
    while i < n
      invariant 0 <= i <= n
      invariant forall a, b :: 0 <= a < n && 0 <= b < d ==>
        records[a, b] == if a < i then expected.rows[a][b] else m.rows[a][b]
    {
      var j := 0;
      while j < d
        invariant 0 <= j <= d
        invariant forall a, b :: 0 <= a < n && 0 <= b < d ==>
          records[a, b] == if a < i || (a == i && b < j) then expected.rows[a][b] else m.rows[a][b]
      {
        records[i, j] := (records[i, j] - means[j]) / stds[j];
        j := j + 1;
      }
      i := i + 1;
    }
    MatEq(ToMat(records), expected);
  }

  /**
   * No sample gives a `0 x 1` array and no feature an all-zero `n x 1` one; otherwise a
   * failed fit is reported behind "KMeans fit failed: " and a successful one gives exactly
   * one label per sample, each below `k <= 8`.
   */
  lemma KMeansOutcome(x: Mat<F64>, sqrt: real -> F64, fit: (Mat<real>, nat) -> Result<seq<nat>, string>)
    requires Valid(x) && FitLabels(fit)
    ensures var r := KMeansResult(x, sqrt, fit);
      (x.nrows == 0 ==> r == Ok(Zeros(0, 1))) &&
      (x.nrows > 0 && x.ncols == 0 ==> r.Ok? && forall i :: 0 <= i < x.nrows ==> r.value.rows[i][0] == 0.0) &&
      (r.Err? ==> x.nrows > 0 && x.ncols > 0 && r.error[..19] == "KMeans fit failed: ") &&
      (r.Ok? ==> (Valid(r.value) && r.value.nrows == x.nrows && r.value.ncols == 1 &&
        forall i :: 0 <= i < x.nrows && x.ncols > 0 ==>
          0.0 <= r.value.rows[i][0] < KFor(x.nrows) as real <= MAX_CLUSTERS as real))
  {
    var r := KMeansResult(x, sqrt, fit);
    if x.nrows > 0 && x.ncols > 0 {
      var records := Standardize(SanitizeMat(x), sqrt);
      var fitted := fit(records, KFor(x.nrows));
      if fitted.Err? {
        assert r.error == "KMeans fit failed: " + fitted.error;
      }
    }
  }
}
