/**
 * Paginated candle extraction (src/charts/candle_stick.rs). A page of rows of a
 * numeric matrix becomes a list of candles (time, open, high, low, close read from
 * five columns). The server path pre-sizes the output and fills it chunk by chunk
 * (in parallel in the source; here one chunk after another); the other path pushes
 * one candle per row. Both give the same page.
 */
module CandleStick {
  import opened Wrappers

  const USIZE_MAX: nat := 0xFFFF_FFFF_FFFF_FFFF
  /** No matrix has more rows than `isize::MAX`. */
  const ISIZE_MAX: nat := 0x7FFF_FFFF_FFFF_FFFF

  datatype Cols = Cols(t: nat, o: nat, h: nat, l: nat, c: nat)
  datatype Candle = Candle(t: real, o: real, h: real, l: real, c: real)
  datatype PageSpec = PageSpec(page: nat, pageSize: nat)

  predicate ValidPage(p: PageSpec)
  {
    p.page <= USIZE_MAX && p.pageSize <= USIZE_MAX
  }

  predicate ColsIn(cols: Cols, ncols: nat)
  {
    cols.t < ncols && cols.o < ncols && cols.h < ncols && cols.l < ncols && cols.c < ncols
  }

  /** `page.saturating_mul(page_size)`. */
  function Start(p: PageSpec): (s: nat)
    ensures s <= USIZE_MAX
    ensures p.page * p.pageSize <= USIZE_MAX ==> s == p.page * p.pageSize
  {
    if p.page * p.pageSize <= USIZE_MAX then p.page * p.pageSize else USIZE_MAX
  }

  /**
   * The rows `[start, end)` of a page of a matrix with `n` rows: none for an empty
   * matrix or a page that starts at or after the last row, else up to `page_size` rows.
   */
  function Window(n: nat, p: PageSpec): (w: Option<(nat, nat)>)
    ensures w.Some? ==> w.value.0 == Start(p) && w.value.0 <= w.value.1 <= n
    ensures w.Some? && p.pageSize > 0 ==> w.value.0 < w.value.1
    ensures w.Some? ==> w.value.1 - w.value.0 <= p.pageSize
    ensures w.None? <==> n == 0 || Start(p) >= n
  {
    if n == 0 then None
    else
      var start := Start(p);
      if start >= n then None
      else
        var end := if start + p.pageSize < n then start + p.pageSize else n;
        Some((start, end))
  }

  /**
   * The addition `start + page_size` is not saturating, yet it cannot overflow: once
   * the page starts inside a matrix, `page_size` is at most `start` (or `start` is 0).
   */
  lemma WindowAddFits(n: nat, p: PageSpec)
    requires ValidPage(p) && n <= ISIZE_MAX
    requires Start(p) < n
    ensures Start(p) + p.pageSize <= USIZE_MAX
  {
    if p.page > 0 {
      MulMonotone(1, p.page, p.pageSize);
    }
  }

  /** The page holds `min(start + page_size, n) - start` rows, and nothing for a zero page size. */
  lemma WindowLength(n: nat, p: PageSpec)
    requires Window(n, p).Some?
    ensures Window(n, p).value.1 - Window(n, p).value.0
      == (if Start(p) + p.pageSize < n then p.pageSize else n - Start(p))
    ensures p.pageSize == 0 ==> Window(n, p).value.1 == Window(n, p).value.0
  {
  }

  /** The candle of row `i`: one entry from each of the five columns. */
  function CandleAt(mat: array2<real>, cols: Cols, i: nat): Candle
    requires i < mat.Length0 && ColsIn(cols, mat.Length1)
    reads mat
  {
    Candle(mat[i, cols.t], mat[i, cols.o], mat[i, cols.h], mat[i, cols.l], mat[i, cols.c])
  }

  /** The page: the candles of the window's rows, in row order. */
  function Page(mat: array2<real>, cols: Cols, p: PageSpec): (r: seq<Candle>)
    requires ColsIn(cols, mat.Length1)
    reads mat
    ensures Window(mat.Length0, p).None? ==> r == []
    ensures Window(mat.Length0, p).Some? ==>
      var (start, end) := Window(mat.Length0, p).value;
      |r| == end - start && forall j :: 0 <= j < |r| ==> r[j] == CandleAt(mat, cols, start + j)
  {
    var w := Window(mat.Length0, p);
    if w.None? then []
    else
      var (start, end) := w.value;
      seq(end - start, j requires 0 <= j < end - start reads mat => CandleAt(mat, cols, start + j))
  }

  /** `(count / (2 * 4)).clamp(8_192, 65_536).max(1)`: a fixed 8 stands for the worker count. */
  function ChunkSize(count: nat): (cs: nat)
    ensures 8192 <= cs <= 65536
    ensures 8192 <= count / 8 <= 65536 ==> cs == count / 8
  {
    var c := count / 8;
    var clamped := if c < 8192 then 8192 else if c > 65536 then 65536 else c;
    MaxNat(clamped, 1)
  }

  function MaxNat(a: nat, b: nat): (m: nat)
    ensures m >= a && m >= b && (m == a || m == b)
  {
    if a >= b then a else b
  }

  lemma MulMonotone(a: nat, b: nat, c: nat)
    requires a <= b
    ensures a * c <= b * c
  {
    var d := b - a;
    assert b * c == a * c + d * c;
  }

  /** The number of chunks `par_chunks_mut` cuts `count` slots into. */
  function ChunkCount(count: nat, cs: nat): (k: nat)
    requires cs > 0
    ensures k * cs >= count && (k == 0 || (k - 1) * cs < count)
  {
    (count + cs - 1) / cs
  }

  /** The output slots `[lo, hi)` that chunk `k` covers. */
  function ChunkSlots(count: nat, cs: nat, k: nat): (r: (nat, nat))
    requires cs > 0
    ensures r.0 == k * cs && r.1 <= count && r.1 <= r.0 + cs
    ensures r.0 < count ==> r.0 < r.1 && (r.1 == count || r.1 == r.0 + cs)
  {
    var lo := k * cs;
    (lo, if lo + cs < count then lo + cs else count)
  }

  /** The chunks are disjoint and together cover every slot exactly once: slot `j` lies in chunk `j / cs` and in no other. */
  lemma ChunksPartition(count: nat, cs: nat, j: nat, k: nat)
    requires cs > 0 && j < count && k < ChunkCount(count, cs)
    ensures var (lo, hi) := ChunkSlots(count, cs, k); (lo <= j < hi) <==> k == j / cs
  {
    var q := j / cs;
    DivBounds(j, cs);
    MulSucc(k, cs);
    if k < q {
      MulMonotone(k + 1, q, cs);
    } else if k > q {
      MulSucc(q, cs);
      MulMonotone(q + 1, k, cs);
    }
  }

  /** `j` lies in the block of `cs` slots that starts at `(j / cs) * cs`. */
  lemma DivBounds(j: nat, cs: nat)
    requires cs > 0
    ensures (j / cs) * cs <= j < (j / cs) * cs + cs
  {
    assert j == (j / cs) * cs + j % cs;
  }

  lemma MulSucc(k: nat, cs: nat)
    ensures (k + 1) * cs == k * cs + cs
  {
  }

  /** Every chunk is non-empty, lies inside the output, and ends where the next one starts or at the end. */
  lemma ChunkInRange(count: nat, cs: nat, k: nat)
    requires cs > 0 && k < ChunkCount(count, cs)
    ensures var (lo, hi) := ChunkSlots(count, cs, k);
      lo == k * cs && lo < hi <= count && (k + 1) * cs >= hi && (hi == count || hi == (k + 1) * cs)
  {
    if k > 0 {
      MulMonotone(k, ChunkCount(count, cs) - 1, cs);
    }
    MulSucc(k, cs);
  }

  /**
   * `candles_pages`: the output is sized to the page, then each chunk writes the
   * candles of its absolute rows `start + k * chunk_sz + j`.
   */
  method CandlesPages(mat: array2<real>, cols: Cols, p: PageSpec) returns (out: seq<Candle>)
    requires ColsIn(cols, mat.Length1)
    ensures out == Page(mat, cols, p)
  {
    var n := mat.Length0;
    if n == 0 {
      return [];
    }
    var start := Start(p);
    if start >= n {
      return [];
    }
    var end := if start + p.pageSize < n then start + p.pageSize else n;
    var count := end - start;
    var buf := new Candle[count](_ => Candle(0.0, 0.0, 0.0, 0.0, 0.0));
    var chunkSz := ChunkSize(count);
    var chunks := ChunkCount(count, chunkSz);
    var k := 0;
    while k < chunks
      invariant 0 <= k <= chunks
      invariant forall m :: 0 <= m < count && m < k * chunkSz ==> buf[m] == CandleAt(mat, cols, start + m)
    {
      ChunkInRange(count, chunkSz, k);
      var (lo, hi) := ChunkSlots(count, chunkSz, k);
      FillChunk(buf, mat, cols, start, end, lo, hi);
      k := k + 1;
    }
    out := buf[..];
  }

  /** One chunk: output slots `[lo, hi)` get the candles of rows `start + lo ..`, stopping at `end`. */
  method FillChunk(buf: array<Candle>, mat: array2<real>, cols: Cols, start: nat, end: nat, lo: nat, hi: nat)
    requires ColsIn(cols, mat.Length1) && lo <= hi <= buf.Length && start + hi <= end <= mat.Length0
    modifies buf
    ensures forall m :: 0 <= m < buf.Length ==>
      buf[m] == if lo <= m < hi then CandleAt(mat, cols, start + m) else old(buf[m])
  {
    var baseI := start + lo;
    var j := 0;
    // a row at or past `end` stops the chunk
    while j < hi - lo && baseI + j < end
      invariant 0 <= j <= hi - lo
      invariant forall m :: 0 <= m < buf.Length ==>
        buf[m] == if lo <= m < lo + j then CandleAt(mat, cols, start + m) else old(buf[m])
    {
      var i := baseI + j;
      buf[lo + j] := Candle(mat[i, cols.t], mat[i, cols.o], mat[i, cols.h], mat[i, cols.l], mat[i, cols.c]);
      j := j + 1;
    }
  }

  /** The fallback of `get_candles_page`: one pushed candle per row of the window. */
  method FallbackPage(mat: array2<real>, cols: Cols, p: PageSpec) returns (out: seq<Candle>)
    requires ColsIn(cols, mat.Length1)
    ensures out == Page(mat, cols, p)
  {
    var n := mat.Length0;
    if n == 0 {
      return [];
    }
    var start := Start(p);
    if start >= n {
      return [];
    }
    var end := if start + p.pageSize < n then start + p.pageSize else n;
    out := [];
    var i := start;
    while i < end
      invariant start <= i <= end
      invariant |out| == i - start
      invariant forall j :: 0 <= j < |out| ==> out[j] == CandleAt(mat, cols, start + j)
    {
      out := out + [Candle(mat[i, cols.t], mat[i, cols.o], mat[i, cols.h], mat[i, cols.l], mat[i, cols.c])];
      i := i + 1;
    }
  }

  /** The column names a candle is read from, in the order they are looked up. */
  const CANDLE_COLUMNS: seq<string> := ["bin", "p0", "pmax", "pmin", "p1"]

  function NotFound(name: string): string
  {
    "column '" + name + "' not found"
  }

  /**
   * Resolving the five columns with the matrix's own lookup `find`: the error names
   * the first of bin, p0, pmax, pmin, p1 that is missing.
   */
  function ResolveCols(find: string -> Option<nat>): (r: Result<Cols, string>)
    ensures r.Ok? <==> forall k :: 0 <= k < 5 ==> find(CANDLE_COLUMNS[k]).Some?
    ensures r.Ok? ==> (find("bin").Some? && find("p0").Some? && find("pmax").Some?
      && find("pmin").Some? && find("p1").Some?
      && r.value == Cols(find("bin").value, find("p0").value, find("pmax").value,
                         find("pmin").value, find("p1").value))
    ensures r.Err? ==> exists k :: (0 <= k < 5 && find(CANDLE_COLUMNS[k]).None?
      && (forall m :: 0 <= m < k ==> find(CANDLE_COLUMNS[m]).Some?)
      && r.error == NotFound(CANDLE_COLUMNS[k]))
  {
    var names := CANDLE_COLUMNS;
    assert names[0] == "bin" && names[1] == "p0" && names[2] == "pmax" && names[3] == "pmin" && names[4] == "p1";
    var t := find("bin");
    if t.None? then Err(NotFound("bin")) else
    var o := find("p0");
    if o.None? then Err(NotFound("p0")) else
    var h := find("pmax");
    if h.None? then Err(NotFound("pmax")) else
    var l := find("pmin");
    if l.None? then Err(NotFound("pmin")) else
    var c := find("p1");
    if c.None? then Err(NotFound("p1")) else
    Ok(Cols(t.value, o.value, h.value, l.value, c.value))
  }

  /**
   * `get_candles_page`: resolve the columns, then read the page by the chunked
   * builder (`server`) or by the fallback loop; the result does not depend on which.
   */
  method GetCandlesPage(mat: array2<real>, find: string -> Option<nat>, p: PageSpec, server: bool)
    returns (r: Result<seq<Candle>, string>)
    requires forall name :: find(name).Some? ==> find(name).value < mat.Length1
    ensures r.Err? <==> ResolveCols(find).Err?
    ensures r.Err? ==> r.error == ResolveCols(find).error
    ensures r.Ok? ==> r.value == Page(mat, ResolveCols(find).value, p)
  {
    var cols := ResolveCols(find);
    if cols.Err? {
      return Err(cols.error);
    }
    if mat.Length0 == 0 {
      return Ok([]);
    }
    var candles;
    if server {
      candles := CandlesPages(mat, cols.value, p);
    } else {
      candles := FallbackPage(mat, cols.value, p);
    }
    r := Ok(candles);
  }
}
