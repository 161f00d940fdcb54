/**
 * The deterministic bookkeeping of `MyMmMatrix::pca_fit_transform_dmatrix`
 * (src/ops/multi_type_mat.rs): dropping columns, sanitising, keeping the columns with
 * variance, clamping `k`, and re-expanding the loadings to the original width. The
 * eigensolver is a parameter; the symmetrisation of the covariance matrix and the
 * ordering of its eigenvalues on the wasm path are modelled separately below.
 */
module Pca {
  import opened Wrappers
  import opened Matrices

  /** Columns whose population variance is at most this are dropped. */
  const VAR_EPS: real := 0.000000000001

  // ---- dropping columns ----

  /** The indices below `d` that are not listed in `drop`, in increasing order. */
  function KeptIndices(d: nat, drop: seq<nat>): (r: seq<nat>)
    ensures forall t :: 0 <= t < |r| ==> r[t] < d
    ensures forall t, u :: 0 <= t < u < |r| ==> r[t] < r[u]
    ensures forall j: nat :: j in r <==> j < d && j !in drop
  {
    if d == 0 then []
    else KeptIndices(d - 1, drop) + (if d - 1 in drop then [] else [d - 1])
  }

  /** The columns listed in `idx`, in that order. */
  function SelectColumns<T>(m: Mat<T>, idx: seq<nat>): (r: Mat<T>)
    requires Valid(m) && forall t :: 0 <= t < |idx| ==> idx[t] < m.ncols
    ensures Valid(r) && r.nrows == m.nrows && r.ncols == |idx|
    ensures forall i, t :: 0 <= i < m.nrows && 0 <= t < |idx| ==> r.rows[i][t] == m.rows[i][idx[t]]
  {
    Mat(m.nrows, |idx|,
        seq(m.nrows, i requires 0 <= i < m.nrows =>
          seq(|idx|, t requires 0 <= t < |idx| => m.rows[i][idx[t]])))
  }

  /**
   * `remove_columns_at` behind `unwrap_or(&[])`: no list or an empty list leaves the
   * matrix as it is; listed indices outside the matrix are ignored.
   */
  function RemoveColumns(m: Mat<F64>, drop: Option<seq<nat>>): (r: Mat<F64>)
    requires Valid(m)
    ensures Valid(r) && r.nrows == m.nrows
  {
    if drop.None? || |drop.value| == 0 then m else SelectColumns(m, KeptIndices(m.ncols, drop.value))
  }

  /** The drop step removes exactly the listed columns that exist, keeping the others in order. */
  lemma RemoveColumnsWidth(m: Mat<F64>, drop: seq<nat>)
    requires Valid(m) && |drop| > 0
    ensures RemoveColumns(m, Some(drop)) == SelectColumns(m, KeptIndices(m.ncols, drop))
    ensures forall j: nat :: j in KeptIndices(m.ncols, drop) <==> j < m.ncols && j !in drop
  {
  }

  // ---- keeping the columns with variance ----

  /** The indices among the first `j` columns whose population variance exceeds `VAR_EPS`. */
  function KeptUpTo(m: Mat<real>, j: nat): seq<nat>
    requires Valid(m) && j <= m.ncols
  {
    if j == 0 then []
    else KeptUpTo(m, j - 1) + (if PopVariance(Column(m, j - 1)) > VAR_EPS then [j - 1] else [])
  }

  /** `keep`: the increasing list of exactly the columns with population variance above 1e-12. */
  function Kept(m: Mat<real>): (keep: seq<nat>)
    requires Valid(m)
    ensures forall t :: 0 <= t < |keep| ==> keep[t] < m.ncols
    ensures forall t, u :: 0 <= t < u < |keep| ==> keep[t] < keep[u]
    ensures forall c: nat :: c in keep <==> c < m.ncols && PopVariance(Column(m, c)) > VAR_EPS
  {
    KeptUpToSpec(m, m.ncols);
    KeptUpToMembers(m, m.ncols);
    KeptUpTo(m, m.ncols)
  }

  lemma {:induction false} KeptUpToSpec(m: Mat<real>, j: nat)
    requires Valid(m) && j <= m.ncols
    ensures forall t :: 0 <= t < |KeptUpTo(m, j)| ==> KeptUpTo(m, j)[t] < j
    ensures forall t, u :: 0 <= t < u < |KeptUpTo(m, j)| ==> KeptUpTo(m, j)[t] < KeptUpTo(m, j)[u]
  {
    if j > 0 {
      KeptUpToSpec(m, j - 1);
    }
  }

  lemma {:induction false} KeptUpToMembers(m: Mat<real>, j: nat)
    requires Valid(m) && j <= m.ncols
    ensures forall c: nat :: c in KeptUpTo(m, j) <==> c < j && PopVariance(Column(m, c)) > VAR_EPS
  {
    if j > 0 {
      KeptUpToMembers(m, j - 1);
    }
  }

  /** The population variance of column `j`, by the two loops of the source. */
  method ColumnVariance(records: Mat<real>, j: nat) returns (variance: real)
    requires Valid(records) && j < records.ncols && records.nrows > 0
    ensures variance == PopVariance(Column(records, j))
  {
    var n := records.nrows;
    var mean := Sum(Column(records, j)) / (n as real);
    var ss := ColumnSumSqDev(records, j, mean);
    variance := ss / (n as real);
  }

  /** The loop that collects `keep`. */
  method KeepColumns(records: Mat<real>) returns (keep: seq<nat>)
    requires Valid(records) && records.nrows > 0
    ensures keep == Kept(records)
  {
    keep := [];
    var j := 0;
    while j < records.ncols
      invariant 0 <= j <= records.ncols
      invariant keep == KeptUpTo(records, j)
    {
      var variance := ColumnVariance(records, j);
      if variance > VAR_EPS {
        keep := keep + [j];
      }
      j := j + 1;
    }
  }

  /** The kept columns copied into a new `n x |keep|` array, column by column. */
  method Reduce(records: Mat<real>, keep: seq<nat>) returns (reduced: Mat<real>)
    requires Valid(records) && forall t :: 0 <= t < |keep| ==> keep[t] < records.ncols
    ensures reduced == SelectColumns(records, keep)
  {
    var n := records.nrows;
    var a := new real[n, |keep|]((_, _) => 0.0);
    var newJ := 0;
    while newJ < |keep|
      invariant 0 <= newJ <= |keep|
      invariant forall i, t :: 0 <= i < n && 0 <= t < |keep| ==>
        a[i, t] == if t < newJ then records.rows[i][keep[t]] else 0.0
    {
      var oldJ := keep[newJ];
      var i := 0;
      while i < n
        invariant 0 <= i <= n
        invariant forall i', t :: 0 <= i' < n && 0 <= t < |keep| ==>
          a[i', t] == if t < newJ || (t == newJ && i' < i) then records.rows[i'][keep[t]] else 0.0
      {
        a[i, newJ] := records.rows[i][oldJ];
        i := i + 1;
      }
      newJ := newJ + 1;
    }
    reduced := ToMat(a);
    MatEq(reduced, SelectColumns(records, keep));
  }

  // ---- k and the re-expansion ----

  /** After mean-centring the rank is at most `min(|keep|, n - 1)`. */
  function KMax(keepLen: nat, n: nat): nat
  {
    if n == 0 then 0 else if keepLen < n - 1 then keepLen else n - 1
  }

  /** `k.clamp(1, k_max)`. */
  function ClampK(k: nat, kMax: nat): (r: nat)
    requires kMax >= 1
    ensures 1 <= r <= kMax
    ensures 1 <= k <= kMax ==> r == k
    ensures k == 0 ==> r == 1
    ensures k > kMax ==> r == kMax
  {
    if k < 1 then 1 else if k > kMax then kMax else k
  }

  /** The position of `j` in `keep`. */
  function Position(keep: seq<nat>, j: nat): (t: nat)
    requires j in keep
    ensures t < |keep| && keep[t] == j
  {
    if keep[0] == j then 0 else 1 + Position(keep[1..], j)
  }

  /**
   * The loadings widened to `d` columns: column `keep[t]` is reduced column `t`, every
   * column not kept is 0.
   */
  function Expand(c: Mat<real>, keep: seq<nat>, d: nat): (r: Mat<real>)
    requires Valid(c) && c.ncols == |keep| && forall t :: 0 <= t < |keep| ==> keep[t] < d
    ensures Valid(r) && r.nrows == c.nrows && r.ncols == d
  {
    Mat(c.nrows, d,
        seq(c.nrows, i requires 0 <= i < c.nrows =>
          seq(d, j requires 0 <= j < d => if j in keep then c.rows[i][Position(keep, j)] else 0.0)))
  }

  predicate Increasing(keep: seq<nat>)
  {
    forall t, u :: 0 <= t < u < |keep| ==> keep[t] < keep[u]
  }

  lemma PositionOf(keep: seq<nat>, t: nat)
    requires Increasing(keep) && t < |keep|
    ensures Position(keep, keep[t]) == t
  {
    var p := Position(keep, keep[t]);
    assert keep[p] == keep[t];
  }

  /** The re-expanded loadings: kept columns copied from the reduced ones, dropped columns exactly 0. */
  lemma ExpandCells(c: Mat<real>, keep: seq<nat>, d: nat)
    requires Valid(c) && c.ncols == |keep| && Increasing(keep) && forall t :: 0 <= t < |keep| ==> keep[t] < d
    ensures forall i, t :: 0 <= i < c.nrows && 0 <= t < |keep| ==> Expand(c, keep, d).rows[i][keep[t]] == c.rows[i][t]
    ensures forall i, j :: 0 <= i < c.nrows && 0 <= j < d && j !in keep ==> Expand(c, keep, d).rows[i][j] == 0.0
  {
    forall t | 0 <= t < |keep|
      ensures Position(keep, keep[t]) == t
    {
      PositionOf(keep, t);
    }
  }

  /** The loop that writes `components[(i, old_j)]`, reduced column by reduced column. */
  method ExpandComponents(c: Mat<real>, keep: seq<nat>, d: nat) returns (components: Mat<real>)
    requires Valid(c) && c.ncols == |keep| && Increasing(keep) && forall t :: 0 <= t < |keep| ==> keep[t] < d
    ensures components == Expand(c, keep, d)
  {
    var k := c.nrows;
    var a := new real[k, d]((_, _) => 0.0);
    ExpandCells(c, keep, d);
    var newJ := 0;
    while newJ < |keep|
      invariant 0 <= newJ <= |keep|
      invariant forall i, j :: 0 <= i < k && 0 <= j < d ==>
        a[i, j] == if j in keep[..newJ] then c.rows[i][Position(keep, j)] else 0.0
    {
      var oldJ := keep[newJ];
      PositionOf(keep, newJ);
      assert forall j :: j in keep[..newJ + 1] <==> j in keep[..newJ] || j == oldJ;
      CopyColumn(a, c, keep, newJ);
      newJ := newJ + 1;
    }
    assert keep[..newJ] == keep;
    components := ToMat(a);
    MatEq(components, Expand(c, keep, d));
  }

  /** One pass of the outer loop: reduced column `newJ` is written to column `keep[newJ]`. */
  method CopyColumn(a: array2<real>, c: Mat<real>, keep: seq<nat>, newJ: nat)
    requires Valid(c) && c.ncols == |keep| && newJ < |keep| && a.Length0 == c.nrows && keep[newJ] < a.Length1
    modifies a
    ensures forall i, j :: 0 <= i < a.Length0 && 0 <= j < a.Length1 ==>
      a[i, j] == if j == keep[newJ] then c.rows[i][newJ] else old(a[i, j])
  {
    var i := 0;
    while i < a.Length0
      invariant 0 <= i <= a.Length0
      invariant forall i', j :: 0 <= i' < a.Length0 && 0 <= j < a.Length1 ==>
        a[i', j] == if j == keep[newJ] && i' < i then c.rows[i'][newJ] else old(a[i', j])
    {
      a[i, keep[newJ]] := c.rows[i][newJ];
      i := i + 1;
    }
  }

  // ---- the whole bookkeeping ----

  /**
   * What the solver promises (`Pca::params(k).fit` then `predict` and `components`):
   * on success, scores of `n x k` and loadings of `k x d` for an `n x d` input.
   */
  ghost predicate FitShapes(fit: (Mat<real>, nat) -> Result<(Mat<F64>, Mat<F64>), string>)
  {
    forall m: Mat<real>, k: nat {:trigger fit(m, k)} :: Valid(m) && fit(m, k).Ok? ==>
      Valid(fit(m, k).value.0) && fit(m, k).value.0.nrows == m.nrows && fit(m, k).value.0.ncols == k &&
      Valid(fit(m, k).value.1) && fit(m, k).value.1.nrows == k && fit(m, k).value.1.ncols == m.ncols
  }

  /** The drop and sanitise steps: the records the rest works on. */
  function Records(x: Mat<F64>, drop: Option<seq<nat>>): (r: Mat<real>)
    requires Valid(x)
    ensures Valid(r) && r.nrows == x.nrows
  {
    SanitizeMat(RemoveColumns(x, drop))
  }

  /** The value `pca_fit_transform_dmatrix` returns, step by step. */
  ghost function PcaResult(x: Mat<F64>, k: nat, drop: Option<seq<nat>>,
                           fit: (Mat<real>, nat) -> Result<(Mat<F64>, Mat<F64>), string>): Result<(Mat<real>, Mat<real>), string>
    requires Valid(x) && FitShapes(fit)
  {
    var records := Records(x, drop);
    var n, d := records.nrows, records.ncols;
    if n < 2 || d == 0 then Ok((Zeros(0, 0), Zeros(0, 0)))
    else
      var keep := Kept(records);
      if |keep| == 0 then Ok((Zeros(n, 0), Zeros(0, d)))
      else
        var kMax := KMax(|keep|, n);
        if kMax == 0 then Ok((Zeros(0, 0), Zeros(0, 0)))
        else
          var kk := ClampK(k, kMax);
          var fitted := fit(SelectColumns(records, keep), kk);
          if fitted.Err? then Err("PCA fit failed: " + fitted.error)
          else
            var scores, reduced := fitted.value.0, fitted.value.1;
            Ok((SanitizeMat(scores), Expand(SanitizeMat(reduced), keep, d)))
  }

  /** `pca_fit_transform_dmatrix` on the path that calls the library solver. */
  method PcaFitTransform(x: Mat<F64>, k: nat, drop: Option<seq<nat>>,
                         fit: (Mat<real>, nat) -> Result<(Mat<F64>, Mat<F64>), string>)
    returns (r: Result<(Mat<real>, Mat<real>), string>)
    requires Valid(x) && FitShapes(fit)
    ensures r == PcaResult(x, k, drop, fit)
  {
    var records := Records(x, drop);
    var n, d := records.nrows, records.ncols;
    if n < 2 || d == 0 {
      return Ok((Zeros(0, 0), Zeros(0, 0)));
    }
    var keep := KeepColumns(records);
    if |keep| == 0 {
      return Ok((Zeros(n, 0), Zeros(0, d)));
    }
    var reduced := Reduce(records, keep);
    var kMax := KMax(|keep|, n);
    if kMax == 0 {
      return Ok((Zeros(0, 0), Zeros(0, 0)));
    }
    var kk := ClampK(k, kMax);
    var fitted := fit(reduced, kk);
    if fitted.Err? {
      return Err("PCA fit failed: " + fitted.error);
    }
    var scores, componentsReduced := fitted.value.0, fitted.value.1;
    var components := ExpandComponents(SanitizeMat(componentsReduced), keep, d);
    r := Ok((SanitizeMat(scores), components));
  }

  /** Fewer than two samples, or no feature left after dropping, gives two 0 x 0 arrays. */
  lemma PcaTooSmall(x: Mat<F64>, k: nat, drop: Option<seq<nat>>,
                    fit: (Mat<real>, nat) -> Result<(Mat<F64>, Mat<F64>), string>)
    requires Valid(x) && FitShapes(fit)
    requires x.nrows < 2 || RemoveColumns(x, drop).ncols == 0
    ensures PcaResult(x, k, drop, fit) == Ok((Zeros(0, 0), Zeros(0, 0)))
  {
  }

  lemma NoMemberEmpty(s: seq<nat>)
    ensures (forall c: nat :: c !in s) ==> |s| == 0
  {
    if |s| > 0 {
      assert s[0] in s;
    }
  }

  /** Once there are two samples and a kept column, `k_max` is at least 1: its 0 branch is dead. */
  lemma KMaxPositive(keepLen: nat, n: nat)
    requires keepLen >= 1 && n >= 2
    ensures KMax(keepLen, n) >= 1 && KMax(keepLen, n) <= keepLen && KMax(keepLen, n) <= n - 1
  {
  }

  /**
   * With samples and features but no column of any variance, the scores are `n x 0`
   * and the loadings `0 x d`.
   */
  lemma PcaNoVariance(x: Mat<F64>, k: nat, drop: Option<seq<nat>>,
                      fit: (Mat<real>, nat) -> Result<(Mat<F64>, Mat<F64>), string>)
    requires Valid(x) && FitShapes(fit)
    requires x.nrows >= 2 && RemoveColumns(x, drop).ncols > 0
    requires forall j :: 0 <= j < RemoveColumns(x, drop).ncols ==> PopVariance(Column(Records(x, drop), j)) <= VAR_EPS
    ensures PcaResult(x, k, drop, fit) == Ok((Zeros(x.nrows, 0), Zeros(0, RemoveColumns(x, drop).ncols)))
  {
    NoMemberEmpty(Kept(Records(x, drop)));
  }

  /**
   * A solver failure is reported with its message behind "PCA fit failed: "; on
   * success the scores are `n x k'` and the loadings `k' x d`, with `k'` the clamped
   * `k`, every kept column copied from the solver's loadings and every other column 0.
   */
  lemma PcaFitted(x: Mat<F64>, k: nat, drop: Option<seq<nat>>,
                  fit: (Mat<real>, nat) -> Result<(Mat<F64>, Mat<F64>), string>)
    requires Valid(x) && FitShapes(fit)
    requires x.nrows >= 2
    requires |Kept(Records(x, drop))| > 0
    ensures var records := Records(x, drop);
      var keep := Kept(records);
      var kk := ClampK(k, KMax(|keep|, x.nrows));
      var fitted := fit(SelectColumns(records, keep), kk);
      var r := PcaResult(x, k, drop, fit);
      (fitted.Err? ==> r == Err("PCA fit failed: " + fitted.error)) &&
      (fitted.Ok? ==> (r.Ok? &&
        Valid(r.value.0) && r.value.0.nrows == x.nrows && r.value.0.ncols == kk &&
        Valid(r.value.1) && r.value.1.nrows == kk && r.value.1.ncols == records.ncols &&
        (forall i, t :: 0 <= i < kk && 0 <= t < |keep| ==>
          r.value.1.rows[i][keep[t]] == Sanitize(fitted.value.1.rows[i][t])) &&
        (forall i, j :: 0 <= i < kk && 0 <= j < records.ncols && j !in keep ==> r.value.1.rows[i][j] == 0.0)))
  {
    var records := Records(x, drop);
    var keep := Kept(records);
    KMaxPositive(|keep|, x.nrows);
    var kk := ClampK(k, KMax(|keep|, x.nrows));
    var fitted := fit(SelectColumns(records, keep), kk);
    if fitted.Ok? {
      ExpandCells(SanitizeMat(fitted.value.1), keep, records.ncols);
    }
  }

  // ---- the wasm path: symmetrising the covariance, ordering the eigenvalues ----

  /** Each off-diagonal pair replaced by its average; the diagonal as it was. */
  function Symmetrized(m: Mat<real>): (r: Mat<real>)
    requires Valid(m) && m.nrows == m.ncols
    ensures Valid(r) && r.nrows == m.nrows && r.ncols == m.ncols
    ensures forall i, j :: 0 <= i < m.nrows && 0 <= j < m.nrows ==>
      r.rows[i][j] == if i == j then m.rows[i][j] else 0.5 * (m.rows[i][j] + m.rows[j][i])
  {
    Mat(m.nrows, m.ncols,
        seq(m.nrows, i requires 0 <= i < m.nrows =>
          seq(m.ncols, j requires 0 <= j < m.ncols =>
            if i == j then m.rows[i][j] else 0.5 * (m.rows[i][j] + m.rows[j][i]))))
  }

  predicate Symmetric(m: Mat<real>)
    requires Valid(m) && m.nrows == m.ncols
  {
    forall i, j :: 0 <= i < m.nrows && 0 <= j < m.nrows ==> m.rows[i][j] == m.rows[j][i]
  }

  /** The result is symmetric, and a symmetric matrix is left as it is. */
  lemma SymmetrizedSymmetric(m: Mat<real>)
    requires Valid(m) && m.nrows == m.ncols
    ensures Symmetric(Symmetrized(m))
    ensures Symmetric(m) ==> Symmetrized(m) == m
  {
    if Symmetric(m) {
      MatEq(Symmetrized(m), m);
    }
  }

  /** The symmetrisation loop over the cells below the diagonal, in place. */
  method Symmetrize(cov: array2<real>)
    requires cov.Length0 == cov.Length1
    modifies cov
    ensures ToMat(cov) == Symmetrized(old(ToMat(cov)))
  {
    ghost var before := ToMat(cov);
    var d := cov.Length0;
    var i := 0;
    while i < d
      invariant 0 <= i <= d
      invariant forall a, b :: 0 <= a < d && 0 <= b < d ==>
        cov[a, b] == if a != b && a < i && b < i then 0.5 * (before.rows[a][b] + before.rows[b][a]) else before.rows[a][b]
    {
      var j := 0;
      while j < i
        invariant 0 <= j <= i
        invariant forall a, b :: 0 <= a < d && 0 <= b < d ==>
          cov[a, b] == if a != b && ((a < i && b < i) || (a == i && b < j) || (b == i && a < j))
            then 0.5 * (before.rows[a][b] + before.rows[b][a]) else before.rows[a][b]
      {
        var v := 0.5 * (cov[i, j] + cov[j, i]);
        cov[i, j] := v;
        cov[j, i] := v;
        j := j + 1;
      }
      i := i + 1;
    }
    ghost var after, expected := ToMat(cov), Symmetrized(before);
    assert forall a, b :: 0 <= a < d && 0 <= b < d ==> after.rows[a][b] == expected.rows[a][b];
    MatEq(after, expected);
  }

  /** Inserting index `x` into a list ordered by decreasing eigenvalue, after its equals. */
  function InsertByValue(vals: seq<real>, x: nat, idx: seq<nat>): (r: seq<nat>)
    requires x < |vals| && forall t :: 0 <= t < |idx| ==> idx[t] < |vals|
    ensures |r| == |idx| + 1
    ensures forall t :: 0 <= t < |r| ==> r[t] == x || r[t] in idx
  {
    if |idx| == 0 then [x]
    else if vals[x] > vals[idx[0]] then [x] + idx
    else
      assert idx == [idx[0]] + idx[1..];
      [idx[0]] + InsertByValue(vals, x, idx[1..])
  }

  /** The stable sort of the indices `0 .. n` by decreasing eigenvalue. */
  function OrderIndices(vals: seq<real>, n: nat): (r: seq<nat>)
    requires n <= |vals|
    ensures |r| == n
    ensures forall t :: 0 <= t < |r| ==> r[t] < n
  {
    if n == 0 then [] else InsertByValue(vals, n - 1, OrderIndices(vals, n - 1))
  }

  /** `(0..n).collect()`. */
  function Range(n: nat): (r: seq<nat>)
    ensures |r| == n && forall t :: 0 <= t < n ==> r[t] == t
  {
    if n == 0 then [] else Range(n - 1) + [n - 1]
  }

  predicate Descending(vals: seq<real>, idx: seq<nat>)
    requires forall t :: 0 <= t < |idx| ==> idx[t] < |vals|
  {
    forall t, u :: 0 <= t < u < |idx| ==> vals[idx[t]] >= vals[idx[u]]
  }

  predicate Stable(vals: seq<real>, idx: seq<nat>)
    requires forall t :: 0 <= t < |idx| ==> idx[t] < |vals|
  {
    forall t, u :: 0 <= t < u < |idx| && vals[idx[t]] == vals[idx[u]] ==> idx[t] < idx[u]
  }

  lemma {:induction false} InsertPermutes(vals: seq<real>, x: nat, idx: seq<nat>)
    requires x < |vals| && forall t :: 0 <= t < |idx| ==> idx[t] < |vals|
    ensures multiset(InsertByValue(vals, x, idx)) == multiset(idx) + multiset{x}
  {
    if |idx| > 0 && vals[x] <= vals[idx[0]] {
      InsertPermutes(vals, x, idx[1..]);
      assert idx == [idx[0]] + idx[1..];
    }
  }

  lemma {:induction false} InsertKeepsDescending(vals: seq<real>, x: nat, idx: seq<nat>)
    requires x < |vals| && forall t :: 0 <= t < |idx| ==> idx[t] < |vals|
    requires Descending(vals, idx)
    ensures Descending(vals, InsertByValue(vals, x, idx))
  {
    if |idx| > 0 && vals[x] <= vals[idx[0]] {
      InsertKeepsDescending(vals, x, idx[1..]);
      HeadDominatesTail(vals, x, idx);
      assert InsertByValue(vals, x, idx) == [idx[0]] + InsertByValue(vals, x, idx[1..]);
    }
  }

  /** When `x` goes behind the head, the head's eigenvalue is at least every later one. */
  lemma HeadDominatesTail(vals: seq<real>, x: nat, idx: seq<nat>)
    requires x < |vals| && forall t :: 0 <= t < |idx| ==> idx[t] < |vals|
    requires |idx| > 0 && vals[x] <= vals[idx[0]] && Descending(vals, idx)
    ensures var tail := InsertByValue(vals, x, idx[1..]);
      forall u :: 0 <= u < |tail| ==> vals[idx[0]] >= vals[tail[u]]
  {
    var tail := InsertByValue(vals, x, idx[1..]);
    forall u | 0 <= u < |tail|
      ensures vals[idx[0]] >= vals[tail[u]]
    {
      if tail[u] != x {
        var v :| 0 <= v < |idx[1..]| && idx[1..][v] == tail[u];
        assert idx[v + 1] == tail[u];
      }
    }
  }

  lemma {:induction false} InsertKeepsStable(vals: seq<real>, x: nat, idx: seq<nat>)
    requires x < |vals| && forall t :: 0 <= t < |idx| ==> idx[t] < x
    requires Descending(vals, idx) && Stable(vals, idx)
    ensures Stable(vals, InsertByValue(vals, x, idx))
  {
    if |idx| > 0 && vals[x] <= vals[idx[0]] {
      InsertKeepsStable(vals, x, idx[1..]);
      HeadPrecedesTail(vals, x, idx);
      assert InsertByValue(vals, x, idx) == [idx[0]] + InsertByValue(vals, x, idx[1..]);
    }
  }

  /** When `x` goes behind the head, the head precedes every later index of equal eigenvalue. */
  lemma HeadPrecedesTail(vals: seq<real>, x: nat, idx: seq<nat>)
    requires x < |vals| && forall t :: 0 <= t < |idx| ==> idx[t] < x
    requires |idx| > 0 && Stable(vals, idx)
    ensures var tail := InsertByValue(vals, x, idx[1..]);
      forall u :: 0 <= u < |tail| && vals[idx[0]] == vals[tail[u]] ==> idx[0] < tail[u]
  {
    var tail := InsertByValue(vals, x, idx[1..]);
    forall u | 0 <= u < |tail| && vals[idx[0]] == vals[tail[u]]
      ensures idx[0] < tail[u]
    {
      if tail[u] != x {
        var v :| 0 <= v < |idx[1..]| && idx[1..][v] == tail[u];
        assert idx[v + 1] == tail[u];
      }
    }
  }

  /**
   * The order the eigenvalues are taken in: indices by decreasing eigenvalue, equal
   * eigenvalues in their original order, each index exactly once.
   */
  lemma OrderIndicesCorrect(vals: seq<real>, n: nat)
    requires n <= |vals|
    ensures Descending(vals, OrderIndices(vals, n))
    ensures Stable(vals, OrderIndices(vals, n))
    ensures multiset(OrderIndices(vals, n)) == multiset(Range(n))
  {
    OrderIndicesDescending(vals, n);
    OrderIndicesStable(vals, n);
    OrderIndicesPermutes(vals, n);
  }

  lemma {:induction false} OrderIndicesDescending(vals: seq<real>, n: nat)
    requires n <= |vals|
    ensures Descending(vals, OrderIndices(vals, n))
  {
    if n > 0 {
      OrderIndicesDescending(vals, n - 1);
      InsertKeepsDescending(vals, n - 1, OrderIndices(vals, n - 1));
    }
  }

  lemma {:induction false} OrderIndicesStable(vals: seq<real>, n: nat)
    requires n <= |vals|
    ensures Stable(vals, OrderIndices(vals, n))
  {
    if n > 0 {
      OrderIndicesDescending(vals, n - 1);
      OrderIndicesStable(vals, n - 1);
      StableStep(vals, n);
    }
  }

  lemma StableStep(vals: seq<real>, n: nat)
    requires 0 < n <= |vals|
    requires Descending(vals, OrderIndices(vals, n - 1)) && Stable(vals, OrderIndices(vals, n - 1))
    ensures Stable(vals, OrderIndices(vals, n))
  {
    InsertKeepsStable(vals, n - 1, OrderIndices(vals, n - 1));
  }

  lemma {:induction false} OrderIndicesPermutes(vals: seq<real>, n: nat)
    requires n <= |vals|
    ensures multiset(OrderIndices(vals, n)) == multiset(Range(n))
  {
    if n > 0 {
      OrderIndicesPermutes(vals, n - 1);
      InsertPermutes(vals, n - 1, OrderIndices(vals, n - 1));
    }
  }

  predicate AllFinite(vals: seq<F64>)
  {
    forall t :: 0 <= t < |vals| ==> vals[t].Finite?
  }

  /**
   * After the eigendecomposition: a non-finite eigenvalue is an error; otherwise
   * loading row `c` is the eigenvector (column of `vecs`) of the `c`-th largest eigenvalue.
   */
  function SelectComponents(vals: seq<F64>, vecs: Mat<real>, k: nat): (r: Result<Mat<real>, string>)
    requires Valid(vecs) && vecs.nrows == |vals| && vecs.ncols == |vals| && k <= |vals|
    ensures r.Err? <==> !AllFinite(vals)
    ensures r.Err? ==> r.error == "PCA failed: non-finite eigenvalues"
    ensures r.Ok? ==> Valid(r.value) && r.value.nrows == k && r.value.ncols == |vals|
  {
    if !AllFinite(vals) then Err("PCA failed: non-finite eigenvalues")
    else
      var order := OrderIndices(Values(vals), |vals|);
      Ok(Mat(k, |vals|,
             seq(k, c requires 0 <= c < k =>
               seq(|vals|, f requires 0 <= f < |vals| => Entry(vecs, f, order[c])))))
  }

  /**
   * With finite eigenvalues, loading row `c` is the eigenvector of the `c`-th entry of
   * the stable descending order of the eigenvalues.
   */
  lemma SelectComponentsOrdered(vals: seq<F64>, vecs: Mat<real>, k: nat)
    requires Valid(vecs) && vecs.nrows == |vals| && vecs.ncols == |vals| && k <= |vals| && AllFinite(vals)
    ensures var order := OrderIndices(Values(vals), |vals|);
      var r := SelectComponents(vals, vecs, k);
      r.Ok? && Descending(Values(vals), order) && Stable(Values(vals), order) &&
      multiset(order) == multiset(Range(|vals|)) &&
      forall c, f :: 0 <= c < k && 0 <= f < |vals| ==>
        order[c] < |vals| && r.value.rows[c][f] == vecs.rows[f][order[c]]
  {
    var order := OrderIndices(Values(vals), |vals|);
    OrderIndicesCorrect(Values(vals), |vals|);
    var r := SelectComponents(vals, vecs, k);
    forall c, f | 0 <= c < k && 0 <= f < |vals|
      ensures r.value.rows[c][f] == vecs.rows[f][order[c]]
    {
      assert r.value.rows[c][f] == Entry(vecs, f, order[c]);
    }
  }

  function Values(vals: seq<F64>): (r: seq<real>)
    ensures |r| == |vals|
  {
    seq(|vals|, t requires 0 <= t < |vals| => Sanitize(vals[t]))
  }

  /** An entry of `m`, 0 outside it. */
  function Entry(m: Mat<real>, i: nat, j: nat): real
    requires Valid(m)
  {
    if i < m.nrows && j < m.ncols then m.rows[i][j] else 0.0
  }
}
