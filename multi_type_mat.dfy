/**
 * The named-column matrix `MyMmMatrix` (src/ops/multi_type_mat.rs): a numeric matrix
 * and a string matrix, each with an optional list of `(index, name)` column labels,
 * and the operations on it that do not involve the PCA and K-means fits. Entries are
 * reals; the conversions from polars frames and the debug printing are not modelled.
 */
module MultiTypeMat {
  import opened Wrappers
  import opened Matrices

  /** The six-slot statistics tuple (`descrips` and `snapshot`). */
  type Stats = (real, real, real, real, real, real)

  const ZERO_STATS: Stats := (0.0, 0.0, 0.0, 0.0, 0.0, 0.0)

  // ---- column lookup by name ----

  /** The index paired with the first entry named `target`. */
  function FindIn(entries: seq<(nat, string)>, target: string): (r: Option<nat>)
    ensures r.None? <==> forall k :: 0 <= k < |entries| ==> entries[k].1 != target
    ensures r.Some? ==> exists k :: (0 <= k < |entries| && entries[k] == (r.value, target) &&
      forall m :: 0 <= m < k ==> entries[m].1 != target)
  {
    if |entries| == 0 then None
    else if entries[0].1 == target then Some(entries[0].0)
    else
      var r := FindIn(entries[1..], target);
      assert r.Some? ==> exists k :: (1 <= k < |entries| && entries[k] == (r.value, target) &&
        forall m :: 0 <= m < k ==> entries[m].1 != target) by {
        if r.Some? {
          var k :| 0 <= k < |entries[1..]| && entries[1..][k] == (r.value, target) &&
            forall m :: 0 <= m < k ==> entries[1..][m].1 != target;
          assert entries[k + 1] == (r.value, target);
          assert forall m :: 0 <= m < k + 1 ==> entries[m].1 != target by {
            forall m | 0 <= m < k + 1
              ensures entries[m].1 != target
            {
              if m > 0 {
                assert entries[m] == entries[1..][m - 1];
              }
            }
          }
        }
      }
      r
  }

  /** `find_index_f64` / `find_index_str`: no labels, or no label `target`, gives `None`. */
  function FindIndex(names: Option<seq<(nat, string)>>, target: string): (r: Option<nat>)
    ensures r.None? <==> names.None? || forall k :: 0 <= k < |names.value| ==> names.value[k].1 != target
    ensures r.Some? ==> exists k :: (0 <= k < |names.value| && names.value[k] == (r.value, target) &&
      forall m :: 0 <= m < k ==> names.value[m].1 != target)
  {
    if names.Some? then FindIn(names.value, target) else None
  }

  /** The labels `(0, n0), (1, n1), …` that enumerate a list of column names. */
  function Enumerate(names: seq<string>): (r: seq<(nat, string)>)
    ensures |r| == |names| && forall k :: 0 <= k < |names| ==> r[k] == (k, names[k])
  {
    seq(|names|, k requires 0 <= k < |names| => (k, names[k]))
  }

  /** Over enumerated labels, a name is found at the position of its first occurrence. */
  lemma FindEnumerated(names: seq<string>, k: nat)
    requires k < |names| && forall m :: 0 <= m < k ==> names[m] != names[k]
    ensures FindIndex(Some(Enumerate(names)), names[k]) == Some(k)
  {
    var r := FindIndex(Some(Enumerate(names)), names[k]);
    assert Enumerate(names)[k].1 == names[k];
    var k' :| 0 <= k' < |names| && Enumerate(names)[k'] == (r.value, names[k]) &&
      forall m :: 0 <= m < k' ==> Enumerate(names)[m].1 != names[k];
    assert names[k'] == names[k];
  }

  // ---- the pure meaning of the in-place operations ----

  /** Every entry plus `v`. */
  function AddAll(m: Mat<real>, v: real): (r: Mat<real>)
    requires Valid(m)
    ensures Valid(r) && r.nrows == m.nrows && r.ncols == m.ncols
    ensures forall i, j :: 0 <= i < m.nrows && 0 <= j < m.ncols ==> r.rows[i][j] == m.rows[i][j] + v
  {
    Mat(m.nrows, m.ncols,
        seq(m.nrows, i requires 0 <= i < m.nrows =>
          seq(m.ncols, j requires 0 <= j < m.ncols => m.rows[i][j] + v)))
  }

  /** Column `col` times `c`, every other column as it was. */
  function ScaleCol(m: Mat<real>, c: real, col: nat): (r: Mat<real>)
    requires Valid(m) && col < m.ncols
    ensures Valid(r) && r.nrows == m.nrows && r.ncols == m.ncols
    ensures forall i, j :: 0 <= i < m.nrows && 0 <= j < m.ncols ==>
      r.rows[i][j] == if j == col then m.rows[i][j] * c else m.rows[i][j]
  {
    Mat(m.nrows, m.ncols,
        seq(m.nrows, i requires 0 <= i < m.nrows =>
          seq(m.ncols, j requires 0 <= j < m.ncols => if j == col then m.rows[i][j] * c else m.rows[i][j])))
  }

  /** Adding `-v` undoes adding `v`. */
  lemma AddAllInverse(m: Mat<real>, v: real)
    requires Valid(m)
    ensures AddAll(AddAll(m, v), -v) == m
  {
    MatEq(AddAll(AddAll(m, v), -v), m);
  }

  /** Scaling a column by `1 / c` undoes scaling it by a non-zero `c`. */
  lemma ScaleColInverse(m: Mat<real>, c: real, col: nat)
    requires Valid(m) && col < m.ncols && c != 0.0
    ensures ScaleCol(ScaleCol(m, c, col), 1.0 / c, col) == m
  {
    var r := ScaleCol(ScaleCol(m, c, col), 1.0 / c, col);
    forall i, j | 0 <= i < m.nrows && 0 <= j < m.ncols
      ensures r.rows[i][j] == m.rows[i][j]
    {
      if j == col {
        assert m.rows[i][j] * c * (1.0 / c) == m.rows[i][j];
      }
    }
    MatEq(r, m);
  }

  // ---- snapshot ----

  /**
   * `snapshot(ind)` on a matrix value: nalgebra's `row_variance` (the population
   * variance of each column, although the source names it `standard_deviations`) and
   * `row_mean`, then four zeros.
   */
  function SnapshotOf(m: Mat<real>, ind: nat): (r: Option<Stats>)
    requires Valid(m) && ind < m.ncols
    ensures r.Some? && r.value.2 == 0.0 && r.value.3 == 0.0 && r.value.4 == 0.0 && r.value.5 == 0.0
    ensures r.value.0 >= 0.0
  {
    var col := Column(m, ind);
    Some((PopVariance(col), Mean(col), 0.0, 0.0, 0.0, 0.0))
  }

  lemma ColumnOfAddAll(m: Mat<real>, v: real, j: nat)
    requires Valid(m) && j < m.ncols
    ensures Column(AddAll(m, v), j) == Shift(Column(m, j), v)
  {
  }

  lemma ColumnOfScaleCol(m: Mat<real>, c: real, col: nat, j: nat)
    requires Valid(m) && col < m.ncols && j < m.ncols
    ensures Column(ScaleCol(m, c, col), j) == if j == col then Scale(Column(m, j), c) else Column(m, j)
  {
    var a := Column(ScaleCol(m, c, col), j);
    if j == col {
      assert forall i :: 0 <= i < m.nrows ==> a[i] == Scale(Column(m, j), c)[i];
    } else {
      assert forall i :: 0 <= i < m.nrows ==> a[i] == Column(m, j)[i];
    }
  }

  /** After `add_scalar(v)` a column's mean has moved by `v` and its variance is unchanged. */
  lemma SnapshotAfterAddScalar(m: Mat<real>, v: real, j: nat)
    requires Valid(m) && j < m.ncols && m.nrows > 0
    ensures SnapshotOf(AddAll(m, v), j).value.0 == SnapshotOf(m, j).value.0
    ensures SnapshotOf(AddAll(m, v), j).value.1 == SnapshotOf(m, j).value.1 + v
  {
    ColumnOfAddAll(m, v, j);
    ShiftStatistics(Column(m, j), v);
  }

  /**
   * After `scale_column(c, col)` the scaled column's mean is multiplied by `c` and its
   * variance by `c * c`; every other column's statistics are unchanged.
   */
  lemma SnapshotAfterScaleColumn(m: Mat<real>, c: real, col: nat, j: nat)
    requires Valid(m) && col < m.ncols && j < m.ncols && m.nrows > 0
    ensures j == col ==> SnapshotOf(ScaleCol(m, c, col), j).value.1 == SnapshotOf(m, j).value.1 * c
    ensures j == col ==> SnapshotOf(ScaleCol(m, c, col), j).value.0 == SnapshotOf(m, j).value.0 * (c * c)
    ensures j != col ==> SnapshotOf(ScaleCol(m, c, col), j) == SnapshotOf(m, j)
  {
    ColumnOfScaleCol(m, c, col, j);
    if j == col {
      ScaleMean(Column(m, j), c);
      ScaleVariance(Column(m, j), c);
    }
  }

  /** A freshly zeroed matrix reports all-zero statistics for every column. */
  lemma SnapshotOfZeros(r: nat, c: nat, j: nat)
    requires j < c
    ensures SnapshotOf(Zeros(r, c), j) == Some(ZERO_STATS)
  {
    var col := Column(Zeros(r, c), j);
    if r > 0 {
      ConstantStatistics(col, 0.0);
    }
  }

  // ---- estimate_retuns ----

  /**
   * The return at row `i` of the first column: 0 at row 0 and after a zero previous
   * value, else the first difference over the previous value.
   */
  function ReturnAt(m: Mat<real>, i: nat): real
    requires Valid(m) && i < m.nrows && (i == 0 || m.ncols >= 1)
  {
    if i == 0 then 0.0
    else
      var prev := m.rows[i - 1][0];
      if prev != 0.0 then (m.rows[i][0] - prev) / prev else 0.0
  }

  /** The input with one more column holding the returns. */
  function WithReturns(m: Mat<real>): (r: Mat<real>)
    requires Valid(m) && (m.ncols >= 1 || m.nrows <= 1)
    ensures Valid(r) && r.nrows == m.nrows && r.ncols == m.ncols + 1
    ensures forall i, j :: 0 <= i < m.nrows && 0 <= j < m.ncols ==> r.rows[i][j] == m.rows[i][j]
    ensures forall i :: 0 <= i < m.nrows ==> r.rows[i][m.ncols] == ReturnAt(m, i)
  {
    Mat(m.nrows, m.ncols + 1,
        seq(m.nrows, i requires 0 <= i < m.nrows => m.rows[i] + [ReturnAt(m, i)]))
  }

  /** A matrix holding `m` and then the returns of its first column is `WithReturns(m)`. */
  lemma ReturnsCells(got: Mat<real>, m: Mat<real>)
    requires Valid(m) && (m.ncols >= 1 || m.nrows <= 1)
    requires Valid(got) && got.nrows == m.nrows && got.ncols == m.ncols + 1
    requires forall a, b :: 0 <= a < m.nrows && 0 <= b < m.ncols + 1 ==>
      got.rows[a][b] == if b < m.ncols then m.rows[a][b] else ReturnAt(m, a)
    ensures got == WithReturns(m)
  {
    MatEq(got, WithReturns(m));
  }

  /** Dropping the appended column gives the input back. */
  lemma WithReturnsKeepsInput(m: Mat<real>)
    requires Valid(m) && (m.ncols >= 1 || m.nrows <= 1)
    ensures forall i :: 0 <= i < m.nrows ==> WithReturns(m).rows[i][..m.ncols] == m.rows[i]
  {
  }

  /** Where the previous value is non-zero, it grown by the return is the current value. */
  lemma ReturnsReconstruct(m: Mat<real>, i: nat)
    requires Valid(m) && m.ncols >= 1 && 1 <= i < m.nrows && m.rows[i - 1][0] != 0.0
    ensures m.rows[i - 1][0] * (1.0 + ReturnAt(m, i)) == m.rows[i][0]
  {
    Growth(m.rows[i - 1][0], m.rows[i][0], ReturnAt(m, i));
  }

  lemma Growth(prev: real, cur: real, r: real)
    requires prev != 0.0 && r == (cur - prev) / prev
    ensures prev * (1.0 + r) == cur
  {
    assert prev * ((cur - prev) / prev) == cur - prev;
  }

  // ---- (de)serialisation as a list of rows ----

  /** `matrix_as_vecvec::serialize`: the rows, top to bottom, each left to right. */
  function Serialize<T>(m: Mat<T>): (rows: seq<seq<T>>)
    requires Valid(m)
    ensures |rows| == m.nrows
    ensures forall i :: 0 <= i < m.nrows ==> |rows[i]| == m.ncols
    ensures forall i, j :: 0 <= i < m.nrows && 0 <= j < m.ncols ==> rows[i][j] == m.rows[i][j]
  {
    m.rows
  }

  /** All rows concatenated, as `data.extend(row)` leaves them. */
  function Flatten<T>(rows: seq<seq<T>>): seq<T>
  {
    if |rows| == 0 then [] else Flatten(rows[..|rows| - 1]) + rows[|rows| - 1]
  }

  /** `DMatrix::from_row_slice(_, cols, data)`: `data` cut into rows of `cols` entries. */
  function Chunk<T>(data: seq<T>, cols: nat): (r: seq<seq<T>>)
    requires cols > 0
    decreases |data|
  {
    if |data| <= cols then (if |data| == 0 then [] else [data]) else [data[..cols]] + Chunk(data[cols..], cols)
  }

  predicate SameLengths<T>(rows: seq<seq<T>>)
  {
    forall i :: 0 <= i < |rows| ==> |rows[i]| == |rows[0]|
  }

  /**
   * `DMatrix::from_row_slice(rows, cols, data)`: `data` cut into `rows` rows of `cols`
   * entries (with no columns, `rows` empty rows).
   */
  function FromRowSlice<T>(rows: nat, cols: nat, data: seq<T>): Mat<T>
  {
    if cols == 0 then Mat(rows, 0, seq(rows, _ => [])) else Mat(rows, cols, Chunk(data, cols))
  }

  /**
   * The corrected deserialiser, which is `matrix_string_as_vecvec::deserialize` as
   * written: "inconsistent row length" when a row differs in length from the first;
   * otherwise the matrix of those rows, where no columns means no rows.
   */
  function FromRows<T>(input: seq<seq<T>>): (r: Result<Mat<T>, string>)
    ensures r.Err? <==> !SameLengths(input)
    ensures r.Err? ==> r.error == "inconsistent row length"
    ensures r.Ok? ==> Valid(r.value) && r.value.ncols == (if |input| == 0 then 0 else |input[0]|)
    ensures r.Ok? && r.value.ncols > 0 ==> r.value.rows == input
    ensures r.Ok? && r.value.ncols == 0 ==> r.value.nrows == 0
  {
    if !SameLengths(input) then Err("inconsistent row length")
    else
      var cols := if |input| == 0 then 0 else |input[0]|;
      var data := Flatten(input);
      var rows := if cols == 0 then 0 else |data| / cols;
      if cols > 0 then ChunkFlatten(input, cols); Ok(FromRowSlice(rows, cols, data))
      else Ok(FromRowSlice(rows, cols, data))
  }

  /** How a call ends: with a value, or with a panic. */
  datatype Outcome<T> = Returned(value: T) | Panicked

  /**
   * `matrix_as_vecvec::deserialize` as written: it divides `data.len()` by `cols`
   * unguarded, so an empty list of rows, or rows that are all empty, panic.
   */
  function FromRowsAsWritten<T>(input: seq<seq<T>>): (r: Outcome<Result<Mat<T>, string>>)
    ensures r.Panicked? <==> SameLengths(input) && (|input| == 0 || |input[0]| == 0)
    ensures r.Returned? ==> r.value == FromRows(input)
  {
    if !SameLengths(input) then Returned(Err("inconsistent row length"))
    else
      var cols := if |input| == 0 then 0 else |input[0]|;
      var data := Flatten(input);
      if cols == 0 then Panicked
      else Returned(Ok(FromRowSlice(|data| / cols, cols, data)))
  }

  /**
   * The numeric matrix of `MyMmMatrix::new(0, 3)` is serialised as `[]`, and reading
   * that back panics where the corrected reading gives a 0 x 0 matrix.
   */
  lemma EmptyMatrixPanicsAsWritten()
    ensures FromRowsAsWritten(Serialize(Zeros(0, 3))) == Panicked
    ensures FromRows(Serialize(Zeros(0, 3))) == Ok(Mat(0, 0, []))
  {
    assert Serialize(Zeros(0, 3)) == [];
  }

  /** `visit_seq`: the rows read one by one, their entries appended to `data`. */
  method Deserialize<T>(input: seq<seq<T>>) returns (r: Result<Mat<T>, string>)
    ensures r == FromRows(input)
  {
    var data: seq<T> := [];
    var rowLen: Option<nat> := None;
    var k := 0;
    while k < |input|
      invariant 0 <= k <= |input|
      invariant data == Flatten(input[..k])
      invariant rowLen == if k == 0 then None else Some(|input[0]|)
      invariant forall i :: 0 <= i < k ==> |input[i]| == |input[0]|
    {
      var row := input[k];
      if rowLen.Some? {
        if |row| != rowLen.value {
          return Err("inconsistent row length");
        }
      } else {
        rowLen := Some(|row|);
      }
      assert input[..k + 1][..k] == input[..k];
      data := data + row;
      k := k + 1;
    }
    assert input[..k] == input;
    var cols := if rowLen.Some? then rowLen.value else 0;
    var rows := if cols == 0 then 0 else |data| / cols;
    r := Ok(FromRowSlice(rows, cols, data));
  }

  lemma {:induction false} FlattenCons<T>(a: seq<T>, rest: seq<seq<T>>)
    ensures Flatten([a] + rest) == a + Flatten(rest)
  {
    if |rest| > 0 {
      var xs := [a] + rest;
      assert xs[..|xs| - 1] == [a] + rest[..|rest| - 1];
      FlattenCons(a, rest[..|rest| - 1]);
    } else {
      assert [a] + rest == [a];
      assert [a][..0] == [];
    }
  }

  lemma {:induction false} ChunkFlatten<T>(rows: seq<seq<T>>, cols: nat)
    requires cols > 0 && forall i :: 0 <= i < |rows| ==> |rows[i]| == cols
    ensures Chunk(Flatten(rows), cols) == rows
    ensures |Flatten(rows)| / cols == |rows| && |Flatten(rows)| % cols == 0
  {
    if |rows| > 0 {
      assert rows == [rows[0]] + rows[1..];
      FlattenCons(rows[0], rows[1..]);
      ChunkFlatten(rows[1..], cols);
      var data := Flatten(rows);
      assert data[..cols] == rows[0] && data[cols..] == Flatten(rows[1..]);
      assert |data| == cols + |Flatten(rows[1..])|;
      DivStep(|Flatten(rows[1..])|, cols, |rows| - 1);
      if |rows| == 1 {
        assert Flatten(rows[1..]) == [];
        assert data == rows[0];
      } else {
        assert |Flatten(rows[1..])| > 0;
      }
    }
  }

  lemma DivStep(a: nat, c: nat, q: nat)
    requires c > 0 && a / c == q && a % c == 0
    ensures (c + a) / c == q + 1 && (c + a) % c == 0
  {
    assert a == q * c;
    DivUnique(c + a, c, q + 1);
  }

  lemma DivUnique(b: int, c: int, q: int)
    requires c > 0 && b == q * c
    ensures b / c == q && b % c == 0
  {
    var d, r := b / c, b % c;
    assert b == d * c + r && 0 <= r < c;
    assert (q - d) * c == r;
    SignedMul(q - d, c);
  }

  lemma SignedMul(e: int, c: int)
    requires c > 0
    ensures e >= 1 ==> e * c >= c
    ensures e <= -1 ==> e * c <= -c
  {
    if e >= 1 {
      assert e * c == c + (e - 1) * c;
    } else if e <= -1 {
      assert e * c == -c + (e + 1) * c;
    }
  }

  /** Deserialising a serialised matrix with at least one row and one column gives it back. */
  lemma RoundTrip<T>(m: Mat<T>)
    requires Valid(m) && m.nrows > 0 && m.ncols > 0
    ensures FromRows(Serialize(m)) == Ok(m)
  {
    ChunkFlatten(Serialize(m), m.ncols);
  }

  /** A matrix without rows or without columns reads back as the 0 x 0 matrix. */
  lemma EmptyReadsBackEmpty<T>(m: Mat<T>)
    requires Valid(m) && (m.nrows == 0 || m.ncols == 0)
    ensures FromRows(Serialize(m)) == Ok(Mat(0, 0, []))
  {
    var r := FromRows(Serialize(m));
    assert r.Ok?;
    assert r.value.nrows == 0 && r.value.ncols == 0 && r.value.rows == [];
  }

  // ---- the matrix object ----

  /** `MyMmMatrix`: the matrices are owned arrays that the methods update in place. */
  class MyMmMatrix {
    var dataF64: array2<real>
    var colnamesEnumF64: Option<seq<(nat, string)>>
    var dataStr: array2<string>
    var colnamesEnumStr: Option<seq<(nat, string)>>
    var descrips: Stats

    /** `new(rows, cols)`: a zero numeric matrix, an empty string matrix, no labels. */
    constructor New(rows: nat, cols: nat)
      ensures fresh(dataF64) && fresh(dataStr)
      ensures ToMat(dataF64) == Zeros(rows, cols)
      ensures dataStr.Length0 == 0 && dataStr.Length1 == 0
      ensures colnamesEnumF64.None? && colnamesEnumStr.None? && descrips == ZERO_STATS
    {
      dataF64 := new real[rows, cols]((i, j) => 0.0);
      descrips := ZERO_STATS;
      colnamesEnumF64 := None;
      dataStr := new string[0, 0];
      colnamesEnumStr := None;
      new;
      MatEq(ToMat(dataF64), Zeros(rows, cols));
    }

    /** `new10x`: `new(10, 10)`. */
    constructor New10x()
      ensures fresh(dataF64) && fresh(dataStr)
      ensures ToMat(dataF64) == Zeros(10, 10)
      ensures dataStr.Length0 == 0 && dataStr.Length1 == 0
      ensures colnamesEnumF64.None? && colnamesEnumStr.None? && descrips == ZERO_STATS
    {
      dataF64 := new real[10, 10]((i, j) => 0.0);
      descrips := ZERO_STATS;
      colnamesEnumF64 := None;
      dataStr := new string[0, 0];
      colnamesEnumStr := None;
      new;
      MatEq(ToMat(dataF64), Zeros(10, 10));
    }

    /** `from(matrix)`: takes ownership of `matrix` as the numeric data. */
    constructor From(matrix: array2<real>)
      ensures dataF64 == matrix && fresh(dataStr)
      ensures dataStr.Length0 == 0 && dataStr.Length1 == 0
      ensures colnamesEnumF64.None? && colnamesEnumStr.None? && descrips == ZERO_STATS
    {
      dataF64 := matrix;
      descrips := ZERO_STATS;
      colnamesEnumF64 := None;
      dataStr := new string[0, 0];
      colnamesEnumStr := None;
    }

    /** `find_index_f64`. */
    function FindIndexF64(target: string): (r: Option<nat>)
      reads this
      ensures r == FindIndex(colnamesEnumF64, target)
    {
      FindIndex(colnamesEnumF64, target)
    }

    /** `find_index_str`. */
    function FindIndexStr(target: string): (r: Option<nat>)
      reads this
      ensures r == FindIndex(colnamesEnumStr, target)
    {
      FindIndex(colnamesEnumStr, target)
    }

    /** `add_scalar`: every entry, visited in storage (column-major) order, plus `value`. */
    method AddScalar(value: real)
      modifies dataF64
      ensures ToMat(dataF64) == AddAll(old(ToMat(dataF64)), value)
    {
      ghost var before := ToMat(dataF64);
      var j := 0;
      while j < dataF64.Length1
        invariant 0 <= j <= dataF64.Length1
        invariant forall a, b :: 0 <= a < dataF64.Length0 && 0 <= b < dataF64.Length1 ==>
          dataF64[a, b] == if b < j then before.rows[a][b] + value else before.rows[a][b]
      {
        var i := 0;
        while i < dataF64.Length0
          invariant 0 <= i <= dataF64.Length0
          invariant forall a, b :: 0 <= a < dataF64.Length0 && 0 <= b < dataF64.Length1 ==>
            dataF64[a, b] == if b < j || (b == j && a < i) then before.rows[a][b] + value else before.rows[a][b]
        {
          dataF64[i, j] := dataF64[i, j] + value;
          i := i + 1;
        }
        j := j + 1;
      }
      MatEq(ToMat(dataF64), AddAll(before, value));
    }

    /**
     * `scale_column(constant, col)`: the entries of column `col` times `constant`; it
     * always returns the matrix itself. A column outside the matrix panics.
     */
    method ScaleColumn(constant: real, col: nat) returns (r: Option<MyMmMatrix>)
      requires col < dataF64.Length1
      modifies dataF64
      ensures r == Some(this)
      ensures ToMat(dataF64) == ScaleCol(old(ToMat(dataF64)), constant, col)
    {
      ghost var before := ToMat(dataF64);
      var i := 0;
      while i < dataF64.Length0
        invariant 0 <= i <= dataF64.Length0
        invariant forall a, b :: 0 <= a < dataF64.Length0 && 0 <= b < dataF64.Length1 ==>
          dataF64[a, b] == if b == col && a < i then before.rows[a][b] * constant else before.rows[a][b]
      {
        dataF64[i, col] := dataF64[i, col] * constant;
        i := i + 1;
      }
      ghost var after, expected := ToMat(dataF64), ScaleCol(before, constant, col);
      assert forall a, b :: 0 <= a < after.nrows && 0 <= b < after.ncols ==> after.rows[a][b] == expected.rows[a][b];
      MatEq(after, expected);
      r := Some(this);
    }

    /** `snapshot(ind)`; an index outside the matrix panics. */
    function Snapshot(ind: nat): (r: Option<Stats>)
      requires ind < dataF64.Length1
      reads this, dataF64
      ensures r == SnapshotOf(ToMat(dataF64), ind)
    {
      SnapshotOf(ToMat(dataF64), ind)
    }

    /**
     * `estimate_retuns`: a new matrix with one more column, the returns of the first
     * column. With no columns and two or more rows, reading the first column panics.
     */
    method EstimateReturns() returns (r: Option<array2<real>>)
      requires dataF64.Length1 >= 1 || dataF64.Length0 <= 1
      ensures r.Some? && fresh(r.value)
      ensures ToMat(r.value) == WithReturns(ToMat(dataF64))
    {
      var rows, cols := dataF64.Length0, dataF64.Length1;
      ghost var m := ToMat(dataF64);
      var returnsColumn := ReturnsColumn();
      var extended := Widened();
      var rr := 0;
      while rr < rows
        invariant 0 <= rr <= rows
        invariant forall a, b :: 0 <= a < rows && 0 <= b < cols + 1 ==>
          extended[a, b] == if b < cols then m.rows[a][b] else if a < rr then ReturnAt(m, a) else 0.0
      {
        extended[rr, cols] := returnsColumn[rr];
        rr := rr + 1;
      }
      ReturnsCells(ToMat(extended), m);
      r := Some(extended);
    }

    /** A new matrix with one more column, the data copied cell by cell and the new column 0. */
    method Widened() returns (extended: array2<real>)
      ensures fresh(extended)
      ensures extended.Length0 == dataF64.Length0 && extended.Length1 == dataF64.Length1 + 1
      ensures forall a, b :: 0 <= a < extended.Length0 && 0 <= b < extended.Length1 ==>
        extended[a, b] == if b < dataF64.Length1 then dataF64[a, b] else 0.0
    {
      var rows, cols := dataF64.Length0, dataF64.Length1;
      extended := new real[rows, cols + 1]((_, _) => 0.0);
      var rr := 0;
      while rr < rows
        invariant 0 <= rr <= rows
        invariant forall a, b :: 0 <= a < rows && 0 <= b < cols + 1 ==>
          extended[a, b] == if a < rr && b < cols then dataF64[a, b] else 0.0
      {
        var c := 0;
        while c < cols
          invariant 0 <= c <= cols
          invariant forall a, b :: 0 <= a < rows && 0 <= b < cols + 1 ==>
            extended[a, b] == if (a < rr || (a == rr && b < c)) && b < cols then dataF64[a, b] else 0.0
        {
          extended[rr, c] := dataF64[rr, c];
          c := c + 1;
        }
        rr := rr + 1;
      }
    }

    /** The returns column of `estimate_retuns`, filled from row 1 on. */
    method ReturnsColumn() returns (returnsColumn: seq<real>)
      requires dataF64.Length1 >= 1 || dataF64.Length0 <= 1
      ensures |returnsColumn| == dataF64.Length0
      ensures forall t :: 0 <= t < dataF64.Length0 ==> returnsColumn[t] == ReturnAt(ToMat(dataF64), t)
    {
      var rows := dataF64.Length0;
      returnsColumn := seq(rows, _ => 0.0);
      var i := 1;
      while i < rows
        invariant 1 <= i && (rows >= 1 ==> i <= rows)
        invariant |returnsColumn| == rows
        invariant forall t :: 0 <= t < rows ==> returnsColumn[t] == if t < i then ReturnAt(ToMat(dataF64), t) else 0.0
      {
        var previousValue := dataF64[i - 1, 0];
        var currentValue := dataF64[i, 0];
        var firstDiff := currentValue - previousValue;
        if previousValue != 0.0 {
          returnsColumn := returnsColumn[i := firstDiff / previousValue];
        }
        i := i + 1;
      }
    }

    /** The numeric matrix as `matrix_as_vecvec::serialize` writes it. */
    function SerializeF64(): (rows: seq<seq<real>>)
      reads this, dataF64
      ensures rows == Serialize(ToMat(dataF64))
    {
      Serialize(ToMat(dataF64))
    }
  }
}
