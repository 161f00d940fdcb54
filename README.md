# og-euler-anunoby: a verified model of the matrix layer and its helpers

This project models the deterministic core of og-euler-anunoby, a Dioxus web app for
exploring financial data. The core is:

- the named-column matrix `MyMmMatrix`: column lookup by name, in-place scalar shift and
  column scaling, the `snapshot` statistics, appended returns, row-list
  (de)serialisation, and the bookkeeping around the PCA and K-means fits;
- paginated candle extraction, with its chunked fill and its fallback loop;
- nanosecond timestamps;
- the news list shaping and the Polygon news URL builder;
- the extraction of `output_text` from a chat-completion response;
- the model-request helpers and the momentum-LSTM request builder;
- the `ChartType` string mapping;
- the non-rendering logic of the multi-asset and single-asset views.

Each Rust source file is one Dafny module:

- `MultiTypeMat`, `Pca` and `KMeans`: src/ops/multi_type_mat.rs;
- `CandleStick`: src/charts/candle_stick.rs;
- `DateTimeOps`: src/ops/datetimeops.rs;
- `NewsHelpers`: src/news/helpers.rs;
- `PolygonReq`: src/news/polygon_req.rs;
- `ChatgptOps`: src/prompting/chatgpt_ops.rs;
- `ModelRequest`: src/model_request/mod.rs;
- `MomentumLstm`: src/model_request/momentum_lstm.rs;
- `Charts`: src/charts/mod.rs;
- `MultiAssets`: src/views/multi_assets.rs;
- `SingleAssets` and `InstrumentIds`: src/views/single_assets.rs.

Shared modules:

- `Wrappers`: `Option` and `Result`.
- `Matrices`: matrix values, the `F64` type (a finite real, or a value `is_finite` rejects), and column statistics.
- `Strs`: the parts of Rust's `str` and integer-formatting API the core uses.
- `Json`: a JSON tree.

Where the source mutates state, the model is imperative. `MyMmMatrix` is a class over
`array2` fields. The candle fill, the PCA and K-means loops, the symmetrisation and the
string and list loops are methods with loop invariants. Each method is proved equal to a
specification function, and the properties the source promises are proved about those
functions.

Foreign code is passed in as function parameters, each with the promise it must keep:

- the PCA eigensolver (on success, scores of `n x k` and loadings of `k x d`);
- the K-means fit (one label below `k` per sample);
- `f64::sqrt`;
- `urlencoding::encode` (every output character is URL-safe);
- JSON-to-text rendering;
- RFC 3339 parsing and date formatting.

`snapshot` stores the population variance in the slot its source calls
`standard_deviations` (src/ops/multi_type_mat.rs:201-202). The model keeps that behaviour:
it reports the variance.

## Model

| member | source | states |
|---|---|---|
| MultiTypeMat.FindIn | src/ops/multi_type_mat.rs:68-72 | None exactly when no entry carries the name; otherwise the index paired with the first entry of that name |
| MultiTypeMat.FindIndex | src/ops/multi_type_mat.rs:68-78 | no label list, or no label equal to the target, gives None; otherwise the index of the first matching label |
| MultiTypeMat.FindEnumerated | src/ops/multi_type_mat.rs:68-72 | over labels `(0, n0), (1, n1), …` a name is found at the position of its first occurrence |
| MultiTypeMat.MyMmMatrix.FindIndexF64 | src/ops/multi_type_mat.rs:68-72 | the lookup runs over the numeric column labels |
| MultiTypeMat.MyMmMatrix.FindIndexStr | src/ops/multi_type_mat.rs:74-78 | the lookup runs over the string column labels |
| MultiTypeMat.MyMmMatrix.New | src/ops/multi_type_mat.rs:35-43 | a fresh zero numeric matrix of the given shape, an empty string matrix, no labels, zero statistics |
| MultiTypeMat.MyMmMatrix.New10x | src/ops/multi_type_mat.rs:45-53 | a fresh 10 x 10 zero matrix, otherwise as `new` |
| MultiTypeMat.MyMmMatrix.From | src/ops/multi_type_mat.rs:54-62 | the given array becomes the numeric data; empty string matrix, no labels, zero statistics |
| MultiTypeMat.AddAll | src/ops/multi_type_mat.rs:64-66 | same shape, every entry plus `v` |
| MultiTypeMat.AddAllInverse | src/ops/multi_type_mat.rs:64-66 | adding `-v` after adding `v` gives the matrix back |
| MultiTypeMat.MyMmMatrix.AddScalar | src/ops/multi_type_mat.rs:64-66 | the array in place becomes `AddAll` of its old contents |
| MultiTypeMat.ScaleCol | src/ops/multi_type_mat.rs:188-197 | same shape; column `col` times `c`, every other column unchanged |
| MultiTypeMat.ScaleColInverse | src/ops/multi_type_mat.rs:188-197 | scaling by `1/c` undoes scaling by a non-zero `c` |
| MultiTypeMat.MyMmMatrix.ScaleColumn | src/ops/multi_type_mat.rs:188-197 | the array in place becomes `ScaleCol` of its old contents; it always returns Some of the matrix itself |
| MultiTypeMat.SnapshotOf | src/ops/multi_type_mat.rs:199-203 | always Some; the first slot is a non-negative variance and the last four slots are 0 |
| MultiTypeMat.MyMmMatrix.Snapshot | src/ops/multi_type_mat.rs:199-203 | the snapshot of the current array contents |
| MultiTypeMat.ColumnOfAddAll | src/ops/multi_type_mat.rs:64-66 | after `add_scalar` each column is the old column shifted by `v` |
| MultiTypeMat.ColumnOfScaleCol | src/ops/multi_type_mat.rs:188-197 | after `scale_column` the scaled column is the old one times `c` and the others are unchanged |
| MultiTypeMat.SnapshotAfterAddScalar | src/ops/multi_type_mat.rs:199-203 | after `add_scalar(v)` a column's mean moves by `v` and its variance is unchanged |
| MultiTypeMat.SnapshotAfterScaleColumn | src/ops/multi_type_mat.rs:199-203 | after `scale_column(c, col)` that column's mean is multiplied by `c` and its variance by `c * c`; other columns keep their statistics |
| MultiTypeMat.SnapshotOfZeros | src/ops/multi_type_mat.rs:35-43 | a freshly zeroed matrix reports all-zero statistics for every column |
| MultiTypeMat.WithReturns | src/ops/multi_type_mat.rs:205-238 | same rows and one more column; the input columns are copied and the last column holds the returns |
| MultiTypeMat.ReturnsCells | src/ops/multi_type_mat.rs:223-236 | any matrix holding the input and then the returns is `WithReturns` |
| MultiTypeMat.WithReturnsKeepsInput | src/ops/multi_type_mat.rs:227-231 | dropping the appended column gives the input back |
| MultiTypeMat.ReturnsReconstruct | src/ops/multi_type_mat.rs:213-221 | where the previous value is non-zero, the previous value grown by the return is the current value |
| MultiTypeMat.MyMmMatrix.EstimateReturns | src/ops/multi_type_mat.rs:205-238 | always Some, a fresh array equal to `WithReturns` of the data |
| MultiTypeMat.MyMmMatrix.Widened | src/ops/multi_type_mat.rs:224-231 | a fresh array with one more column; the data is copied cell by cell and the new column is 0 |
| MultiTypeMat.MyMmMatrix.ReturnsColumn | src/ops/multi_type_mat.rs:210-221 | one entry per row: 0 at row 0 and after a zero previous value, else the first difference over the previous value |
| MultiTypeMat.Serialize | src/ops/multi_type_mat.rs:520-528 | one list per row, top to bottom, each holding that row's entries left to right |
| MultiTypeMat.MyMmMatrix.SerializeF64 | src/ops/multi_type_mat.rs:520-528 | the numeric data serialised as rows |
| MultiTypeMat.FromRows | src/ops/multi_type_mat.rs:605-625 | "inconsistent row length" exactly when some row differs in length from the first; otherwise the matrix of those rows, and no columns means no rows |
| MultiTypeMat.FromRowsAsWritten | src/ops/multi_type_mat.rs:543-563 | panics exactly when the rows agree in length but there are no rows or the first is empty; otherwise agrees with `FromRows` |
| MultiTypeMat.EmptyMatrixPanicsAsWritten | src/ops/multi_type_mat.rs:561-562 | the serialised form of `new(0, 3)` makes the f64 deserialiser panic, while the corrected reading gives a 0 x 0 matrix |
| MultiTypeMat.Deserialize | src/ops/multi_type_mat.rs:605-625 | the row-by-row visitor loop computes `FromRows` |
| MultiTypeMat.ChunkFlatten | src/ops/multi_type_mat.rs:558-563 | cutting the concatenated rows into rows of `cols` entries gives the rows back |
| MultiTypeMat.RoundTrip | src/ops/multi_type_mat.rs:520-563 | deserialising a serialised matrix with at least one row and one column gives it back |
| MultiTypeMat.EmptyReadsBackEmpty | src/ops/multi_type_mat.rs:620-625 | a matrix without rows or without columns reads back as the 0 x 0 matrix |
| Matrices.Sanitize | src/ops/multi_type_mat.rs:276 | a finite value is kept and a non-finite one becomes 0 |
| Matrices.SanitizeMat | src/ops/multi_type_mat.rs:274-276 | same shape, every entry sanitised |
| Matrices.Zeros | src/ops/multi_type_mat.rs:37 | the given shape, every entry 0 |
| Matrices.ShiftStatistics | src/ops/multi_type_mat.rs:199-203 | adding a constant moves the mean by that constant and leaves the population variance unchanged |
| Matrices.ScaleMean | src/ops/multi_type_mat.rs:199-203 | scaling by `c` scales the mean by `c` |
| Matrices.ScaleVariance | src/ops/multi_type_mat.rs:199-203 | scaling by `c` scales the population variance by `c * c` |
| Matrices.SumSqDevScale | src/ops/multi_type_mat.rs:288-292 | scaling the column and its centre by `c` scales the sum of squared deviations by `c * c` |
| Matrices.CenteredScaledVariance | src/ops/multi_type_mat.rs:458-481 | centring a column and scaling it by `c` multiplies its variance by `c * c` |
| Matrices.ConstantStatistics | src/ops/multi_type_mat.rs:286-296 | a column of equal entries has that mean and no variance |
| Matrices.SumShift | src/ops/multi_type_mat.rs:287 | the sum of a shifted column is the old sum plus `n` times the shift |
| Matrices.SumScale | src/ops/multi_type_mat.rs:287 | the sum of a scaled column is the old sum times the factor |
| Matrices.SumSqDevShift | src/ops/multi_type_mat.rs:288-292 | shifting the column and its centre by the same amount keeps the sum of squared deviations |
| Matrices.ColumnSumSqDev | src/ops/multi_type_mat.rs:288-292 | the `ss += diff * diff` loop computes the column's sum of squared deviations from the given mean |
| Pca.KeptIndices | src/ops/multi_type_mat.rs:269-272 | increasing, below `d`, and holding exactly the indices not listed in the drop list |
| Pca.SelectColumns | src/ops/multi_type_mat.rs:269-272 | same rows; column `t` is input column `idx[t]` |
| Pca.RemoveColumns | src/ops/multi_type_mat.rs:269-272 | no list or an empty list keeps the matrix; the row count is kept |
| Pca.RemoveColumnsWidth | src/ops/multi_type_mat.rs:269-272 | a non-empty list removes exactly the listed existing columns and keeps the rest in order |
| Pca.Kept | src/ops/multi_type_mat.rs:285-297 | `keep` is increasing and holds exactly the columns whose population variance exceeds 1e-12 |
| Pca.KeptUpToSpec | src/ops/multi_type_mat.rs:285-297 | the indices kept among the first `j` columns are below `j` and increasing |
| Pca.KeptUpToMembers | src/ops/multi_type_mat.rs:285-297 | an index is kept among the first `j` columns exactly when it is below `j` and its variance exceeds 1e-12 |
| Pca.ColumnVariance | src/ops/multi_type_mat.rs:287-293 | the two loops compute the column's population variance |
| Pca.KeepColumns | src/ops/multi_type_mat.rs:285-297 | the loop collects exactly `Kept` |
| Pca.Reduce | src/ops/multi_type_mat.rs:306-311 | the copy loop builds the kept columns in `keep` order |
| Pca.ClampK | src/ops/multi_type_mat.rs:318 | `k` clamped into `[1, k_max]`: kept when inside, 1 for 0, `k_max` above |
| Pca.KMaxPositive | src/ops/multi_type_mat.rs:314-317 | with two samples and a kept column, `k_max` is at least 1 and at most `min(|keep|, n - 1)`, so the `k_max == 0` branch is dead |
| Pca.Position | src/ops/multi_type_mat.rs:432 | the position of a kept index within `keep` |
| Pca.PositionOf | src/ops/multi_type_mat.rs:432 | in an increasing `keep`, the position of `keep[t]` is `t` |
| Pca.Expand | src/ops/multi_type_mat.rs:431-436 | the loadings widened to `d` columns, with the same number of rows |
| Pca.ExpandCells | src/ops/multi_type_mat.rs:431-436 | column `keep[t]` is reduced column `t`, and every column not kept is exactly 0 |
| Pca.ExpandComponents | src/ops/multi_type_mat.rs:431-436 | the write loop builds `Expand` |
| Pca.CopyColumn | src/ops/multi_type_mat.rs:433-435 | one outer pass writes reduced column `newJ` into column `keep[newJ]` and leaves every other cell |
| Pca.Records | src/ops/multi_type_mat.rs:269-276 | the drop and sanitise steps keep the row count |
| Pca.PcaFitTransform | src/ops/multi_type_mat.rs:263-443 | the function on the library-solver path returns `PcaResult` |
| Pca.PcaTooSmall | src/ops/multi_type_mat.rs:278-282 | fewer than two samples, or no feature left after dropping, gives two 0 x 0 arrays |
| Pca.PcaNoVariance | src/ops/multi_type_mat.rs:299-304 | with samples and features but no column of any variance, the scores are `n x 0` and the loadings `0 x d` |
| Pca.PcaFitted | src/ops/multi_type_mat.rs:306-442 | a solver failure is reported behind "PCA fit failed: "; on success the scores are `n x k'` and the loadings `k' x d` with `k'` the clamped `k`, kept columns copied and all others 0 |
| Pca.Symmetrized | src/ops/multi_type_mat.rs:367-373 | each off-diagonal pair replaced by its average, the diagonal kept |
| Pca.SymmetrizedSymmetric | src/ops/multi_type_mat.rs:367-373 | the result is symmetric, and a symmetric matrix is left as it is |
| Pca.Symmetrize | src/ops/multi_type_mat.rs:367-373 | the in-place loop over the cells below the diagonal computes `Symmetrized` |
| Pca.InsertByValue | src/ops/multi_type_mat.rs:385-401 | one more element: the inserted index or one of the old ones |
| Pca.OrderIndices | src/ops/multi_type_mat.rs:385-401 | `n` indices, each below `n` |
| Pca.Range | src/ops/multi_type_mat.rs:385 | `0 .. n` in order |
| Pca.InsertPermutes | src/ops/multi_type_mat.rs:385-401 | insertion adds exactly the inserted index to the multiset |
| Pca.InsertKeepsDescending | src/ops/multi_type_mat.rs:385-401 | inserting into a list ordered by decreasing eigenvalue keeps it ordered |
| Pca.InsertKeepsStable | src/ops/multi_type_mat.rs:385-401 | inserting a larger index after its equals keeps equal eigenvalues in index order |
| Pca.OrderIndicesCorrect | src/ops/multi_type_mat.rs:385-401 | the sort lists indices by decreasing eigenvalue, equal eigenvalues in their original order, each index exactly once |
| Pca.OrderIndicesDescending | src/ops/multi_type_mat.rs:385-401 | the sorted indices have decreasing eigenvalues |
| Pca.OrderIndicesStable | src/ops/multi_type_mat.rs:385-401 | equal eigenvalues keep their index order |
| Pca.OrderIndicesPermutes | src/ops/multi_type_mat.rs:385-401 | the sorted list is a permutation of `0 .. n` |
| Pca.SelectComponents | src/ops/multi_type_mat.rs:381-408 | a non-finite eigenvalue gives "PCA failed: non-finite eigenvalues"; otherwise a `k x d` loading matrix |
| Pca.SelectComponentsOrdered | src/ops/multi_type_mat.rs:403-408 | loading row `c`, entry `f` is `eigenvectors[(f, idx[c])]` for the `c`-th entry `idx[c]` of the stable descending eigenvalue order, a permutation of `0..d` |
| Pca.Values | src/ops/multi_type_mat.rs:386-399 | one value per eigenvalue |
| KMeans.RoundSqrtFrom | src/ops/multi_type_mat.rs:490 | the search returns a rounded square root of `n` |
| KMeans.RoundSqrt | src/ops/multi_type_mat.rs:490 | `sqrt(n).round()` as an integer `r` with `r*r - r < n <= r*r + r` |
| KMeans.RoundSqrtUnique | src/ops/multi_type_mat.rs:490 | each `n >= 1` has exactly one rounded square root |
| KMeans.RoundSqrtNearest | src/ops/multi_type_mat.rs:490 | the rounded root is within one half of the real square root |
| KMeans.Clamp | src/ops/multi_type_mat.rs:490 | the result lies in `[lo, hi]` and equals `x` when `x` does |
| KMeans.KFor | src/ops/multi_type_mat.rs:485-491 | `k = 1` for at most one sample, else `2 <= k <= min(n, 8)` |
| KMeans.KForIsClampedRoot | src/ops/multi_type_mat.rs:485-491 | for `n >= 2`, `k` is the rounded root clamped into `[2, min(n, 8)]` |
| KMeans.KForLarge | src/ops/multi_type_mat.rs:489-490 | from 57 samples on, `k` is 8 |
| KMeans.KForSmall | src/ops/multi_type_mat.rs:489-490 | for 2 to 6 samples, `k` is 2 |
| KMeans.Divisor | src/ops/multi_type_mat.rs:472-476 | positive; the standard deviation when finite and above 1e-12, else 1 |
| KMeans.Divisors | src/ops/multi_type_mat.rs:463-477 | one divisor per column, from the square root of its population variance |
| KMeans.Standardize | src/ops/multi_type_mat.rs:478-482 | same shape; every entry minus its column mean, over its column divisor |
| KMeans.StandardizedColumn | src/ops/multi_type_mat.rs:478-482 | a standardised column is the column shifted by minus its mean and scaled by one over its divisor |
| KMeans.StandardizedAt | src/ops/multi_type_mat.rs:481 | each standardised entry, read through its column |
| KMeans.StandardizedEntry | src/ops/multi_type_mat.rs:481 | each standardised entry as a shifted and scaled column entry |
| KMeans.StandardizedStatistics | src/ops/multi_type_mat.rs:457-482 | every standardised column has mean 0; a column whose divisor falls back to 1 is only centred |
| KMeans.StandardizedVariance | src/ops/multi_type_mat.rs:457-482 | a standardised column's variance is the old variance divided by the square of its divisor |
| KMeans.StandardizedUnitVariance | src/ops/multi_type_mat.rs:463-481 | a column whose `sqrt` returns a true square root above 1e-12 has variance exactly 1 once standardised |
| KMeans.LabelColumn | src/ops/multi_type_mat.rs:507-509 | an `n x 1` matrix |
| KMeans.KMeansClusters | src/ops/multi_type_mat.rs:445-510 | the means, divisors and standardisation loops followed by the fit compute `KMeansResult` |
| KMeans.ColumnMeans | src/ops/multi_type_mat.rs:458-461 | one mean per column |
| KMeans.ColumnDivisors | src/ops/multi_type_mat.rs:463-477 | the loop computes `Divisors` |
| KMeans.StandardizeInPlace | src/ops/multi_type_mat.rs:479-483 | the in-place loop leaves `Standardize` of the input |
| KMeans.KMeansOutcome | src/ops/multi_type_mat.rs:445-510 | no sample gives `0 x 1`, no feature an all-zero `n x 1`; a failed fit is reported behind "KMeans fit failed: "; success gives one label per sample, each below `k <= 8` |
| CandleStick.Start | src/charts/candle_stick.rs:40 | the saturating product `page * page_size` |
| CandleStick.Window | src/charts/candle_stick.rs:37-43 | no window exactly for an empty matrix or a start at or past the last row; otherwise `start <= end <= n`, at most `page_size` rows, non-empty for a non-zero page size |
| CandleStick.WindowAddFits | src/charts/candle_stick.rs:42 | the unchecked `start + page_size` cannot overflow once the page starts inside the matrix |
| CandleStick.WindowLength | src/charts/candle_stick.rs:40-43 | the page holds `min(start + page_size, n) - start` rows, none for a zero page size |
| CandleStick.Page | src/charts/candle_stick.rs:77-84 | empty without a window; otherwise slot `j` is the candle of row `start + j` |
| CandleStick.ChunkSize | src/charts/candle_stick.rs:64 | between 8192 and 65536, and `count / 8` when that lies in range |
| CandleStick.ChunkCount | src/charts/candle_stick.rs:66-67 | the fewest chunks of `cs` slots that cover `count` |
| CandleStick.ChunkSlots | src/charts/candle_stick.rs:71-72 | chunk `k` starts at `k * cs` and ends at the next chunk or at the end of the output |
| CandleStick.ChunksPartition | src/charts/candle_stick.rs:66-85 | slot `j` lies in chunk `j / cs` and in no other |
| CandleStick.ChunkInRange | src/charts/candle_stick.rs:66-72 | every chunk is non-empty, lies inside the output, and ends where the next one starts or at the end |
| CandleStick.CandlesPages | src/charts/candle_stick.rs:30-96 | the chunk-by-chunk fill of the pre-sized output gives `Page` |
| CandleStick.FillChunk | src/charts/candle_stick.rs:69-85 | one chunk writes the candles of its slots and leaves every other slot |
| CandleStick.FallbackPage | src/charts/candle_stick.rs:124-143 | the push loop also gives `Page` |
| CandleStick.ResolveCols | src/charts/candle_stick.rs:102-112 | Ok exactly when all five names resolve; otherwise "column '<name>' not found" for the first missing name among bin, p0, pmax, pmin, p1 |
| CandleStick.GetCandlesPage | src/charts/candle_stick.rs:99-144 | the column error as resolved; otherwise the page, the same on both paths |
| DateTimeOps.TimestampOpt | src/ops/datetimeops.rs:13 | Some exactly for a representable pair, holding that pair |
| DateTimeOps.DatetimeToNanos | src/ops/datetimeops.rs:4-8 | a `u64` whose quotient by 1e9 is the seconds and whose remainder is the nanoseconds |
| DateTimeOps.ConvertNanoToDatetime | src/ops/datetimeops.rs:10-14 | seconds `ts / 1e9` and nanoseconds `ts % 1e9`, below 1e9 |
| DateTimeOps.ConvertAlwaysSome | src/ops/datetimeops.rs:10-14 | every `u64` converts, to a non-negative second count |
| DateTimeOps.NanosRoundTrip | src/ops/datetimeops.rs:4-14 | converting a timestamp and back gives it again |
| DateTimeOps.DatetimeRoundTrip | src/ops/datetimeops.rs:4-14 | converting a date-time in range to nanoseconds and back gives it again |
| DateTimeOps.MinMaxDatetimes | src/ops/datetimeops.rs:17-38 | None exactly for an empty input; otherwise both ends are converted input elements, the first at or before and the second at or after every element |
| DateTimeOps.MinMaxOrdered | src/ops/datetimeops.rs:25-37 | the first date-time is not after the second |
| NewsHelpers.Utf8Len | src/news/helpers.rs:22 | one to four bytes per character |
| NewsHelpers.ByteLen | src/news/helpers.rs:15 | at least the character count |
| NewsHelpers.ByteLenMonotone | src/news/helpers.rs:20-27 | a longer prefix has at least as many bytes |
| NewsHelpers.TruncationUnique | src/news/helpers.rs:13-29 | there is only one longest whole-character prefix within `N` bytes |
| NewsHelpers.ToArrayString | src/news/helpers.rs:13-29 | the longest whole-character prefix within `N` bytes, and the string itself when it fits |
| NewsHelpers.PushBackWrapping | src/news/helpers.rs:62-64 | at most 15 entries: an append, or the oldest dropped when full |
| NewsHelpers.BestLink | src/news/helpers.rs:32-35 | the AMP URL when present, else the article URL |
| NewsHelpers.Headline | src/news/helpers.rs:68-74 | the title if non-empty, else the description if present, else the id |
| NewsHelpers.Insert | src/news/helpers.rs:52-56 | one more element: the inserted item or one of the old ones |
| NewsHelpers.InsertKeepsOrder | src/news/helpers.rs:52-56 | insertion keeps a newest-first list newest-first |
| NewsHelpers.InsertPermutes | src/news/helpers.rs:52-56 | insertion adds exactly the inserted item to the multiset |
| NewsHelpers.SortNewestFirstCorrect | src/news/helpers.rs:52-56 | the sort is newest-first and a permutation of the items |
| NewsHelpers.InsertKeepsStable | src/news/helpers.rs:52-56 | in a newest-first list, insertion places the item behind every item of its own date and leaves each date's items in their order |
| NewsHelpers.SortNewestFirstStable | src/news/helpers.rs:52-56 | the sort is stable: for every date, and for the unparseable dates, the items of that date keep their input order |
| NewsHelpers.UnparseableLast | src/news/helpers.rs:52-56 | after an item with an unparseable date, every later item's date is unparseable too |
| NewsHelpers.PolygonToProps | src/news/helpers.rs:47-94 | the model is copied; the three lists have `min(15, n)` entries, the truncated headline, link and date of the newest items in order |
| PolygonReq.NewJustKey | src/news/polygon_req.rs:23-25 | the key set and every other field None |
| PolygonReq.New | src/news/polygon_req.rs:27-45 | the unwrapped key and the given fields, with `order` None |
| PolygonReq.Ticker | src/news/polygon_req.rs:47-50 | the ticker set, every other field unchanged |
| PolygonReq.PublishedGte | src/news/polygon_req.rs:53-56 | the lower date bound set, every other field unchanged |
| PolygonReq.PublishedLte | src/news/polygon_req.rs:77-80 | the upper date bound set, every other field unchanged |
| PolygonReq.PublishedGteNaiveDate | src/news/polygon_req.rs:58-62 | the lower bound is the formatted date |
| PolygonReq.PublishedGteNaiveDatetime | src/news/polygon_req.rs:64-68 | the lower bound is the formatted date-time followed by "Z" |
| PolygonReq.PublishedGteDatetime | src/news/polygon_req.rs:70-74 | the lower bound is the RFC 3339 text |
| PolygonReq.PublishedLteNaiveDate | src/news/polygon_req.rs:82-85 | the upper bound is the formatted date |
| PolygonReq.PublishedLteNaiveDatetime | src/news/polygon_req.rs:86-90 | the upper bound is the formatted date-time followed by "Z" |
| PolygonReq.PublishedLteDatetime | src/news/polygon_req.rs:91-95 | the upper bound is the RFC 3339 text |
| PolygonReq.Keys | src/news/polygon_req.rs:101-108 | the keys of the pairs, in order |
| PolygonReq.KeysAppend | src/news/polygon_req.rs:101-108 | the keys of two lists appended are the appended key lists |
| PolygonReq.EncodedPairs | src/news/polygon_req.rs:114 | each pair is `encode(k)=encode(v)`, in order |
| PolygonReq.BuildUrl | src/news/polygon_req.rs:97-119 | the endpoint, '?', then the encoded pairs joined by '&' |
| PolygonReq.ToSpec | src/news/polygon_req.rs:121-128 | a GET with no body, the single header Accept: application/json, and the built URL |
| PolygonReq.KeysOfParams | src/news/polygon_req.rs:101-108 | the keys appear only for set fields, in the order ticker, published_utc.gte, published_utc.lte, order, limit, sort, then apiKey |
| PolygonReq.ParamsShape | src/news/polygon_req.rs:101-108 | one pair per set field plus apiKey, which comes last; ticker first and sort second to last when set |
| PolygonReq.ParamKeys | src/news/polygon_req.rs:101-108 | a key is present exactly when its field is set, apiKey always |
| PolygonReq.QuerySplitsIntoPairs | src/news/polygon_req.rs:110-117 | splitting the query on '&' gives the encoded pairs back, so it holds exactly one fewer '&' than pairs |
| PolygonReq.PairSplitsOnEquals | src/news/polygon_req.rs:114 | each pair splits on '=' into the encoded key and value |
| ChatgptOps.ExtractOutputText | src/prompting/chatgpt_ops.rs:11-30 | the accumulation of the `output_text` texts in item and block order; "" without an "output" array |
| ChatgptOps.AppendBlocks | src/prompting/chatgpt_ops.rs:16-25 | the inner loop extends the accumulation by the texts of the item's blocks |
| ChatgptOps.DropLeadingEmpty | src/prompting/chatgpt_ops.rs:19-21 | the result starts with a non-empty text, if any |
| ChatgptOps.AccumulateIsJoin | src/prompting/chatgpt_ops.rs:19-22 | the output is the texts after the leading empty ones, joined by '\n', so it never starts with a newline |
| ChatgptOps.ExtractStartsWithFirstText | src/prompting/chatgpt_ops.rs:11-30 | when the first text is non-empty, the output starts with it |
| ModelRequest.UiCtx.constructor | src/views/single_assets.rs:392-410 | the initial value of every signal `UiProvider` puts in the context: no dates, ids 8147 and 11667, bin size "5m", the local database settings and the default feature, model, output and run names |
| ModelRequest.UiCtx.Snapshot | src/model_request/mod.rs:53-71 | a copy of every field of the context |
| ModelRequest.ResponseResult | src/model_request/mod.rs:134-138 | Ok with the text exactly for a status in `[200, 300)`, else the status in decimal |
| ModelRequest.SentHeaders | src/model_request/mod.rs:115-153 | GET sends the headers as given; POST appends Content-Type: application/json exactly when no key equals "content-type" ignoring ASCII case |
| ModelRequest.PostBody | src/model_request/mod.rs:155-159 | no JSON body sends an empty body |
| ModelRequest.LineEnd | src/model_request/mod.rs:183 | the index of the first '\n', or the length |
| ModelRequest.FirstLine | src/model_request/mod.rs:182-184 | at most 160 characters, a prefix of the input, no '\n', and "" for "" |
| ModelRequest.FirstLineOfOneLine | src/model_request/mod.rs:182-184 | a short single line is its own first line |
| ModelRequest.FirstLineStopsAtNewline | src/model_request/mod.rs:183 | the first line ends before the first '\n', without a trailing '\r' |
| ModelRequest.LineEndAfterPlain | src/model_request/mod.rs:183 | the line ends where the newline-free prefix ends |
| ModelRequest.FromStrWithSpecs | src/model_request/mod.rs:187-197 | never None; MomTrain with the training spec exactly for "train", else MomBacktest |
| MomentumLstm.StrArr | src/model_request/momentum_lstm.rs:86 | a JSON array with one entry per string |
| MomentumLstm.IntArr | src/model_request/momentum_lstm.rs:63-82 | a JSON array with one entry per integer |
| MomentumLstm.Base | src/model_request/momentum_lstm.rs:123 | the URL with every trailing '/' removed |
| MomentumLstm.BuildRequest | src/model_request/momentum_lstm.rs:59-161 | a GET without body whose URL starts with the base; the train headers are Accept and Content-Type, the backtest header Accept only |
| MomentumLstm.TrainRequestContents | src/model_request/momentum_lstm.rs:117-124 | the train URL is base, "/tsmomnn/train?req_json=" and the unencoded JSON text; `run_name` and the load `batch_size` defaults |
| MomentumLstm.ReqJsonSections | src/model_request/momentum_lstm.rs:117-122 | the request JSON holds the train and load sections and the database URL |
| MomentumLstm.TrainJsonFields | src/model_request/momentum_lstm.rs:106-114 | `run_name` is "run" when none is set; the train `batch_size` stays null when unset |
| MomentumLstm.LoadJsonBatch | src/model_request/momentum_lstm.rs:91 | the load `batch_size` is 5 when unset |
| MomentumLstm.BacktestQuery | src/model_request/momentum_lstm.rs:136-151 | the backtest URL is base, "/tsmomnn/backtest?" and the five encoded pairs in order; the query splits back into them, and the id list reads back as the ids |
| MomentumLstm.JoinFive | src/model_request/momentum_lstm.rs:144 | five parts joined by '&' |
| MomentumLstm.PairsLackAmpersand | src/model_request/momentum_lstm.rs:144-150 | no encoded pair holds '&' |
| Charts.AsStr | src/charts/mod.rs:11-16 | "line" or "candle", "candle" exactly for Candle |
| Charts.FromStr | src/charts/mod.rs:18-24 | Candle exactly for "candle", Line for every other string |
| Charts.FromUsizeAsStr | src/charts/mod.rs:25-31 | 0 is "line", 1 is "candle", anything else "None" |
| Charts.FromStrAsStr | src/charts/mod.rs:11-24 | reading back a chart type's name gives it back |
| Charts.AsStrFromStr | src/charts/mod.rs:11-24 | a string survives a read and write exactly when it is "line" or "candle" |
| Charts.FromStrOfUsize | src/charts/mod.rs:18-31 | the name of `n` reads back as Candle exactly for 1 |
| MultiAssets.NumericNames | src/views/multi_assets.rs:149-168 | at most one name per schema entry |
| MultiAssets.NumericNamesMembers | src/views/multi_assets.rs:149-168 | a name is listed exactly when some entry of that name is numeric and not a grouping key |
| MultiAssets.NumericColumns | src/views/multi_assets.rs:150-168 | the scan loop computes `NumericNames` |
| MultiAssets.MeanName | src/views/multi_assets.rs:395 | the name followed by "_mean" |
| MultiAssets.SelectedMean | src/views/multi_assets.rs:393-397 | at most one name per factor; each ends in "_mean" and resolves |
| MultiAssets.SelectedMeanMembers | src/views/multi_assets.rs:393-397 | a name is selected exactly when it is the mean name of a listed factor and resolves |
| MultiAssets.SelectedMeanKeepsOrder | src/views/multi_assets.rs:393-397 | when every mean name resolves, the factors' mean names are all kept in order |
| MultiAssets.InCategory | src/views/multi_assets.rs:401-404 | only listed factors in the category |
| MultiAssets.InCategoryMembers | src/views/multi_assets.rs:401-404 | a factor is kept exactly when it is listed and in the category |
| MultiAssets.CategoryFactorsMembers | src/views/multi_assets.rs:399-417 | a category list holds exactly the resolving mean names of listed factors in that category |
| MultiAssets.MeanColumnsIn | src/views/multi_assets.rs:426-430 | only names ending in "_mean" |
| MultiAssets.MeanColumnsInMembers | src/views/multi_assets.rs:426-430 | a labelled name is kept exactly when it ends in "_mean" |
| MultiAssets.MeanColumnsMembers | src/views/multi_assets.rs:424-432 | the fallback holds exactly the labelled columns ending in "_mean", and each resolves |
| MultiAssets.FactorGroupsShown | src/views/multi_assets.rs:399-434 | every displayed factor is a resolving "_mean" column; the category lists are used unless both are empty, when the cross list falls back to `selected_mean` and then to every "_mean" column |
| MultiAssets.EffectSkipsSmall | src/views/multi_assets.rs:259-268 | no grouped matrix, or fewer than two rows or columns, leaves `pca_nms` None |
| MultiAssets.EffectOutcome | src/views/multi_assets.rs:270-298 | `pca_nms` is set exactly when the PCA with `k = 2` and drop `[0, 1, 2]` succeeds with non-empty scores of at least two columns, and carries labels exactly when K-means succeeds too |
| MultiAssets.EffectNeedsTwoVaryingColumns | src/views/multi_assets.rs:265-275 | a chart needs at least three rows and two non-key columns with variance |
| MultiAssets.MultiAssetView.constructor | src/views/multi_assets.rs:182-199 | "TUR", "Price", the twelve initial factors, no submission, no PCA result |
| MultiAssets.MultiAssetView.ChooseFactor | src/views/multi_assets.rs:333-337 | the factor is shown and appended to the list; the other signals are unchanged |
| MultiAssets.MultiAssetView.ClearFactors | src/views/multi_assets.rs:341-344 | the list is exactly date, gvkey, iid, excntry; the other signals are unchanged |
| MultiAssets.MultiAssetView.Submit | src/views/multi_assets.rs:379 | the counter goes up by one; the other signals are unchanged |
| MultiAssets.MultiAssetView.RunPcaEffect | src/views/multi_assets.rs:259-299 | `pca_nms` becomes `EffectResult`; the other signals are unchanged |
| InstrumentIds.IdStrings | src/views/single_assets.rs:423 | each id in decimal, in order |
| InstrumentIds.JoinIds | src/views/single_assets.rs:421-424 | empty exactly for no ids |
| InstrumentIds.ParseTokens | src/views/single_assets.rs:479-482 | at most one id per token, each within `i64` |
| InstrumentIds.ParseIds | src/views/single_assets.rs:479-482 | every parsed id is within `i64` |
| InstrumentIds.ParseEmpty | src/views/single_assets.rs:479-482 | an empty field gives no ids |
| InstrumentIds.ParseFormattedToken | src/views/single_assets.rs:423 | a formatted id needs no trimming and parses back to itself |
| InstrumentIds.ParseFormattedTokens | src/views/single_assets.rs:479-482 | tokens that are formatted ids parse back to those ids |
| InstrumentIds.ParseJoinIds | src/views/single_assets.rs:421-482 | reading the id text back gives exactly the ids, in order |
| Strs.SplitJoin | src/views/single_assets.rs:479-482 | splitting a join undoes it when no part holds the separator |
| Strs.SplitAfterPlainPrefix | src/views/single_assets.rs:480 | a separator-free prefix is glued onto the first piece |
| Strs.SplitCount | src/news/polygon_req.rs:110-117 | `split` yields one more piece than there are separators |
| Strs.TrimEndMatches | src/model_request/momentum_lstm.rs:123 | a prefix without the trailing run of the character |
| Strs.TrimNoWhitespace | src/views/single_assets.rs:481 | a string without whitespace is its own trim |
| Strs.I64ToString | src/views/single_assets.rs:423 | non-empty, with no ',' and no whitespace |
| Strs.ParseI64 | src/views/single_assets.rs:155 | a parsed value lies within `i64` and comes from a non-empty string |
| Strs.ParseFormatted | src/views/single_assets.rs:423 | parsing a formatted `i64` gives it back |
| Strs.DigitsValueOfNat | src/views/single_assets.rs:423 | the digits of `n` read back as `n` |
| Strs.EncodedLacks | src/news/polygon_req.rs:114 | a character percent-encoding never emits is absent from its output |
| SingleAssets.AssetSearch.constructor | src/views/single_assets.rs:58 | the instrument starts at 8147 |
| SingleAssets.AssetSearch.OnInput | src/views/single_assets.rs:154-157 | the instrument changes only to the value the whole input parses to as an `i64` |
| SingleAssets.IdsField.constructor | src/views/single_assets.rs:421-424 | the text starts as the ids joined by ',', in sync with them |
| SingleAssets.IdsField.OnInput | src/views/single_assets.rs:475-484 | the text is kept as typed and the ids become what it parses to |
| SingleAssets.TileActions | src/views/single_assets.rs:270 | backtest first, train second |
| SingleAssets.ModelBlock.constructor | src/views/single_assets.rs:537-538 | idle and in train mode |
| SingleAssets.ModelBlock.Current | src/views/single_assets.rs:539 | "train" exactly in train mode |
| SingleAssets.ModelBlock.Select | src/views/single_assets.rs:593-598 | train mode exactly when "train" is chosen; the status is unchanged |
| SingleAssets.ModelBlock.Start | src/views/single_assets.rs:544-567 | an enabled button marks the tile Running and yields the action of the current mode; a disabled one ignores the click |
| SingleAssets.ModelBlock.Click | src/views/single_assets.rs:545-568 | as `Start`, and the request is built from a snapshot of the form for the chosen action |
| SingleAssets.ModelBlock.Complete | src/views/single_assets.rs:569-586 | a body goes to the handler of the click's mode and the status shows its first line; an error goes to both handlers and is shown; the button is enabled again |
| SingleAssets.ChosenRequest | src/views/single_assets.rs:551-567 | with the standard actions, train mode sends the training request and backtest mode the backtest request |

## Left out

- The PCA eigendecomposition (`linfa_reduction::Pca`, `nalgebra::SymmetricEigen`) and the K-means fit (k-means++ seeding) are foreign floating-point code. They are parameters that promise output shapes only.
- Pca.SelectComponents: requires a square `d x d` eigenvector matrix, which `nalgebra::SymmetricEigen` always returns for the `d x d` covariance; indexing `eigenvectors` outside it would panic in the source.
- `f64::sqrt` is a parameter, so the accuracy of standardisation is not modelled.
- The wasm32 branch of the PCA is partly modelled. Its symmetrisation loop and its eigenvalue ordering and selection are modelled; its centring, standardising and covariance product are not.
- KMeans.StandardizedUnitVariance: variance 1 is stated only for columns whose `sqrt` parameter returns an exact root above 1e-12; the rounding of `f64::sqrt` and of the division is not modelled, so the source only comes close to 1.
- MultiTypeMat.MyMmMatrix.ScaleColumn: requires `col` to be a column of the matrix; the source panics when it is not (`column_mut(col)`, src/ops/multi_type_mat.rs:190-191).
- MultiTypeMat.MyMmMatrix.Snapshot: requires `ind` to be a column of the matrix; the source panics when it is not (`standard_deviations[ind]`, src/ops/multi_type_mat.rs:202). The views call `snapshot(0)` and `snapshot(1)` (src/views/single_assets.rs:144-146) on matrices whose width this model does not track, so those calls are not shown to be safe.
- MultiTypeMat.MyMmMatrix.EstimateReturns: requires a first column whenever there are two or more rows; the source panics when a matrix with rows has no columns (`matrix[(i - 1, 0)]`, src/ops/multi_type_mat.rs:214).
- MultiTypeMat.MyMmMatrix.ReturnsColumn: same requirement as EstimateReturns, for the same indexing panic at src/ops/multi_type_mat.rs:214.
- CandleStick.CandlesPages: requires every resolved column to be inside the matrix; the source panics when one is not (`mat.column(..)`, src/charts/candle_stick.rs:45-49).
- CandleStick.FallbackPage: same requirement as CandlesPages, for the panic at src/charts/candle_stick.rs:132-136.
- CandleStick.GetCandlesPage: assumes that `MyMatrix::find_index` only returns columns inside the matrix; a lookup that returned a column outside it would make the source panic in `mat.column(..)` (src/charts/candle_stick.rs:45-49 and 132-136).
- Floating point is modelled by exact reals. NaN and the infinities are a single non-finite value. So `total_cmp` ordering among non-finite eigenvalues is not modelled: an error is returned before that sort.
- The `k_max == 0` branch of the PCA is not modelled as a path, because Pca.KMaxPositive proves it unreachable.
- Candle extraction runs its chunks one after another. Rayon's `par_chunks_mut`, the `MaybeUninit`/`set_len`/`from_raw_parts` code and the tokio `Handle` are not modelled.
- CandleStick.ChunkSize: uses the source's fixed `2 * 4` in place of a worker count. That is the source's own behaviour, not a simplification.
- `MyMatrix` (src/ops/mod.rs) is not part of this model. Its `find_index` is the lookup parameter of `CandleStick.GetCandlesPage`, and its matrix is an `array2<real>`.
- `from_polars_dataframe` (polars), `dimmensions`, `head` and `inner_ref` (printing and borrowing) are not modelled. `find_col_index_f64` and `find_col_index_str` are `todo!()`.
- `MyMmMatrix::convert_nano_to_datetime` (f64 `%` and a chrono `unwrap`) is not modelled.
- The serde derives and the serialiser are reduced to the row lists they produce. JSON-to-text rendering and `urlencoding::encode` are parameters.
- DateTimeOps.DatetimeToNanos: requires a non-negative second count whose nanosecond count fits in a `u64`. Outside that range the source's `u64` arithmetic wraps (release build) or panics (debug build), and neither is modelled.
- Leap-second nanoseconds (1e9 and above) are not modelled: `Representable` requires nanoseconds below 1e9.
- `ymd` is a parameter. Its `Utc::now()` fallback reads the clock.
- RFC 3339 parsing in the news sort is a parameter, `parse`.
- PolygonReq.New: requires the API key to be present. The source unwraps it and panics otherwise. The ignored `cursor` argument is not a parameter.
- ModelRequest.PostBody: states only the empty-body case. The body text of a JSON body is the `render` parameter.
- The network parts are not modelled: `execute_request`'s sends and response reads, `llm_ai`, `post_ai`, `fetch_polygon_news` and `fetch_factors_matrix`. ModelRequest.ResponseResult and ModelRequest.SentHeaders model what `execute_request` does around them.
- The `spawn`ed future of a model tile is two steps: `ModelBlock.Click` up to the request and `ModelBlock.Complete` once it ends. The model-only field `wasTrain` remembers the mode of the click.
- SingleAssets.ModelBlock.Complete: requires a running status: only a request a click started can complete.
- Rendering, tracing and logging are not modelled, and neither are the data fetches of the views.

## Findings

| source | as written | input that shows it | evidently intended | confidence | as-written member | corrected member |
|---|---|---|---|---|---|---|
| src/ops/multi_type_mat.rs:561-562 | the f64 deserialiser computes `data.len() / cols` with `cols = row_len.unwrap_or(0)`, so it divides by zero when there are no rows or the rows are empty | `[]`, which is how the numeric matrix of `MyMmMatrix::new(0, 3)` serialises | as in the string deserialiser (src/ops/multi_type_mat.rs:624): no columns gives no rows, and so a 0 x 0 matrix | not executed | MultiTypeMat.FromRowsAsWritten (shown by MultiTypeMat.EmptyMatrixPanicsAsWritten) | MultiTypeMat.FromRows (MultiTypeMat.RoundTrip, MultiTypeMat.EmptyReadsBackEmpty) |
