/**
 * Nanosecond timestamps and `DateTime<Utc>` (src/ops/datetimeops.rs). A date-time is
 * chrono's pair of whole seconds since the Unix epoch and sub-second nanoseconds.
 */
module DateTimeOps {
  import opened Wrappers

  const NANOS_PER_SEC: nat := 1_000_000_000
  /** 2^64: one more than the largest `u64`. */
  const U64_MOD: nat := 0x1_0000_0000_0000_0000
  const U64_MAX: nat := U64_MOD - 1
  /** The seconds of chrono's first and last representable instants (years -262143 and 262142). */
  const CHRONO_MIN_SECS: int := -8_334_601_315_200
  const CHRONO_MAX_SECS: int := 8_210_266_876_799

  datatype DateTime = DateTime(secs: int, nanos: nat)

  /** A value chrono can hold (leap-second nanoseconds are not modelled). */
  predicate Representable(dt: DateTime)
  {
    CHRONO_MIN_SECS <= dt.secs <= CHRONO_MAX_SECS && dt.nanos < NANOS_PER_SEC
  }

  /** `Utc.timestamp_opt(secs, nanos).single()`. */
  function TimestampOpt(secs: int, nanos: nat): (r: Option<DateTime>)
    ensures r.Some? <==> Representable(DateTime(secs, nanos))
    ensures r.Some? ==> r.value == DateTime(secs, nanos)
  {
    if Representable(DateTime(secs, nanos)) then Some(DateTime(secs, nanos)) else None
  }

  /**
   * `datetime_to_nanos`. The `u64` arithmetic panics on overflow in a debug build (a
   * negative second count turns into a huge `u64` first), so callers must stay in range.
   */
  function DatetimeToNanos(dt: DateTime): (r: nat)
    requires Representable(dt) && dt.secs >= 0
    requires dt.secs * NANOS_PER_SEC + dt.nanos < U64_MOD
    ensures r < U64_MOD
    ensures r / NANOS_PER_SEC == dt.secs && r % NANOS_PER_SEC == dt.nanos
  {
    dt.secs * NANOS_PER_SEC + dt.nanos
  }

  /** `convert_nano_to_datetime`: whole seconds by division, nanoseconds by remainder. */
  function ConvertNanoToDatetime(ts: nat): (r: Option<DateTime>)
    requires ts < U64_MOD
    ensures r.Some? ==> r.value.nanos < NANOS_PER_SEC
    ensures r.Some? ==> r.value.secs * NANOS_PER_SEC + r.value.nanos == ts
  {
    TimestampOpt(ts / NANOS_PER_SEC, ts % NANOS_PER_SEC)
  }

  /** Every `u64` nanosecond count lies inside chrono's range, so the conversion never fails. */
  lemma ConvertAlwaysSome(ts: nat)
    requires ts < U64_MOD
    ensures ConvertNanoToDatetime(ts).Some?
    ensures ConvertNanoToDatetime(ts).value.secs >= 0
  {
    assert ts / NANOS_PER_SEC <= U64_MAX / NANOS_PER_SEC;
  }

  /** Round trip from nanoseconds: converting and converting back is the identity. */
  lemma NanosRoundTrip(ts: nat)
    requires ts < U64_MOD
    ensures ConvertNanoToDatetime(ts).Some?
    ensures DatetimeToNanos(ConvertNanoToDatetime(ts).value) == ts
  {
    ConvertAlwaysSome(ts);
  }

  /** Round trip from date-times at or after the epoch that fit in a `u64` count. */
  lemma DatetimeRoundTrip(dt: DateTime)
    requires Representable(dt) && dt.secs >= 0
    requires dt.secs * NANOS_PER_SEC + dt.nanos < U64_MOD
    ensures ConvertNanoToDatetime(DatetimeToNanos(dt)) == Some(dt)
  {
    var ts := DatetimeToNanos(dt);
    assert ts / NANOS_PER_SEC == dt.secs && ts % NANOS_PER_SEC == dt.nanos;
  }

  /**
   * `min_max_datetimes`: `None` for no timestamps; otherwise the earliest and latest of
   * them, each one of the inputs, found by one scan that starts from `u64::MAX` and 0.
   */
  method MinMaxDatetimes(timestamps: seq<nat>) returns (r: Option<(DateTime, DateTime)>)
    requires forall i :: 0 <= i < |timestamps| ==> timestamps[i] < U64_MOD
    ensures r.None? <==> |timestamps| == 0
    ensures r.Some? ==> exists i :: 0 <= i < |timestamps| && ConvertNanoToDatetime(timestamps[i]) == Some(r.value.0)
    ensures r.Some? ==> exists i :: 0 <= i < |timestamps| && ConvertNanoToDatetime(timestamps[i]) == Some(r.value.1)
    ensures r.Some? ==> forall i :: 0 <= i < |timestamps| ==>
      r.value.0.secs * NANOS_PER_SEC + r.value.0.nanos <= timestamps[i] <= r.value.1.secs * NANOS_PER_SEC + r.value.1.nanos
  {
    if |timestamps| == 0 {
      return None;
    }
    var minTs := U64_MAX;
    var maxTs := 0;
    ghost var minAt, maxAt := 0, 0;
    var k := 0;
    while k < |timestamps|
      invariant 0 <= k <= |timestamps|
      invariant k == 0 ==> minTs == U64_MAX && maxTs == 0
      invariant k > 0 ==> 0 <= minAt < k && timestamps[minAt] == minTs
      invariant k > 0 ==> 0 <= maxAt < k && timestamps[maxAt] == maxTs
      invariant forall i :: 0 <= i < k ==> minTs <= timestamps[i] <= maxTs
    {
      var ts := timestamps[k];
      if ts < minTs {
        minTs := ts;
        minAt := k;
      } else if k == 0 {
        minAt := 0;  // the first timestamp is u64::MAX itself
      }
      if ts > maxTs {
        maxTs := ts;
        maxAt := k;
      } else if k == 0 {
        maxAt := 0;  // the first timestamp is 0 itself
      }
      k := k + 1;
    }
    ConvertAlwaysSome(minTs);
    ConvertAlwaysSome(maxTs);
    var minDt := ConvertNanoToDatetime(minTs);
    var maxDt := ConvertNanoToDatetime(maxTs);
    r := Some((minDt.value, maxDt.value));
  }

  /** The two ends that `min_max_datetimes` returns are in order. */
  lemma MinMaxOrdered(timestamps: seq<nat>, lo: DateTime, hi: DateTime)
    requires |timestamps| > 0
    requires forall i :: 0 <= i < |timestamps| ==>
      lo.secs * NANOS_PER_SEC + lo.nanos <= timestamps[i] <= hi.secs * NANOS_PER_SEC + hi.nanos
    requires lo.nanos < NANOS_PER_SEC && hi.nanos < NANOS_PER_SEC
    ensures lo.secs < hi.secs || (lo.secs == hi.secs && lo.nanos <= hi.nanos)
  {
    assert lo.secs * NANOS_PER_SEC + lo.nanos <= hi.secs * NANOS_PER_SEC + hi.nanos by {
      assert lo.secs * NANOS_PER_SEC + lo.nanos <= timestamps[0] <= hi.secs * NANOS_PER_SEC + hi.nanos;
    }
    if lo.secs > hi.secs {
      SecondsApart(lo.secs, hi.secs);
      assert false;
    }
  }

  /** A later whole second starts at least a full second of nanoseconds later. */
  lemma SecondsApart(a: int, b: int)
    requires a > b
    ensures a * NANOS_PER_SEC >= b * NANOS_PER_SEC + NANOS_PER_SEC
  {
    assert a * NANOS_PER_SEC - b * NANOS_PER_SEC == (a - b) * NANOS_PER_SEC;
  }
}
