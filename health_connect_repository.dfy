/** The gateway to the platform health store. The store itself is foreign I/O, so it
    appears here through its outcomes: the answer to the granted-permissions query and
    a total function from a time range to what a read of that range returns. Times are
    epoch instants in milliseconds. */
module HealthConnectRepository {
  import opened HealthModels
  import opened HRVCalculator
  import opened MeasurementOrder

  const ReadFailedMessage: string := "Failed to read heart rate data"
  const UnknownErrorMessage: string := "Unknown error"
  const InsufficientDataMessage: string := "Insufficient heart rate data for HRV calculation"

  /** R-R interval in milliseconds of one beat at one beat per minute. */
  const MillisPerMinute: real := 60000.0
  const MillisPerHour: int := 60 * 60 * 1000
  /** Window used when the caller gives no number of hours. */
  const DefaultHoursBack: int := 24

  /** A stored sample's rate. The repository never checks it, so its positivity is
      an assumption the model makes about the store. */
  type StoredBeatsPerMinute = b: int | b > 0 witness 1

  datatype Permission = ReadHeartRate | ReadHeartRateVariabilityRmssd | OtherPermission(name: string)

  /** Reading heart rate and reading heart-rate variability (RMSSD). */
  const RequiredPermissions: set<Permission> := {ReadHeartRate, ReadHeartRateVariabilityRmssd}

  /** Outcome of asking the store which permissions the app holds. */
  datatype PermissionQuery = Granted(permissions: set<Permission>) | QueryFailed(cause: Cause)

  datatype Sample = Sample(beatsPerMinute: StoredBeatsPerMinute, time: int)

  /** A stored heart-rate record: a series of samples written by one application. */
  datatype HeartRateRecord = HeartRateRecord(samples: seq<Sample>, dataOrigin: string)

  /** Outcome of reading the heart-rate records of a time range. */
  datatype ReadOutcome = Records(records: seq<HeartRateRecord>) | ReadFailed(cause: Cause)

  /** The store's answer to a read of [startTime, endTime]. */
  type HeartRateStore = (int, int) -> ReadOutcome

  // ---------------------------------------------------------------------------
  // Permissions

  /** hasAllPermissions: every required permission is granted; a failed query counts
      as not granted. */
  function HasAllPermissions(query: PermissionQuery): (b: bool)
    ensures b <==> query.Granted?
                   && ReadHeartRate in query.permissions
                   && ReadHeartRateVariabilityRmssd in query.permissions
  {
    query.Granted? && RequiredPermissions <= query.permissions
  }

  /** Granting more permissions never withdraws access. */
  lemma HasAllPermissionsMonotone(fewer: set<Permission>, more: set<Permission>)
    requires fewer <= more
    ensures HasAllPermissions(Granted(fewer)) ==> HasAllPermissions(Granted(more))
  {
  }

  // ---------------------------------------------------------------------------
  // Reading heart-rate data

  /** `record.samples.map { ... }`: one measurement per sample, labelled with the
      record's origin. */
  function RecordMeasurements(record: HeartRateRecord): (r: seq<HeartRateMeasurement>)
    ensures |r| == |record.samples|
    ensures forall i :: 0 <= i < |r| ==>
      r[i] == HeartRateMeasurement(record.samples[i].beatsPerMinute, record.samples[i].time, record.dataOrigin)
  {
    seq(|record.samples|, i requires 0 <= i < |record.samples| =>
      HeartRateMeasurement(record.samples[i].beatsPerMinute, record.samples[i].time, record.dataOrigin))
  }

  predicate PositiveRates(measurements: seq<HeartRateMeasurement>)
  {
    forall i :: 0 <= i < |measurements| ==> measurements[i].beatsPerMinute > 0
  }

  lemma PositiveRatesConcat(a: seq<HeartRateMeasurement>, b: seq<HeartRateMeasurement>)
    requires PositiveRates(a) && PositiveRates(b)
    ensures PositiveRates(a + b)
  {
    forall i | 0 <= i < |a + b|
      ensures (a + b)[i].beatsPerMinute > 0
    {
      if i >= |a| {
        assert (a + b)[i] == b[i - |a|];
      }
    }
  }

  lemma PositiveRatesPermutation(a: seq<HeartRateMeasurement>, b: seq<HeartRateMeasurement>)
    requires PositiveRates(a) && multiset(a) == multiset(b)
    ensures PositiveRates(b)
  {
    forall i | 0 <= i < |b|
      ensures b[i].beatsPerMinute > 0
    {
      assert b[i] in multiset(b);
      assert b[i] in multiset(a);
      var k :| 0 <= k < |a| && a[k] == b[i];
    }
  }

  /** `records.flatMap { ... }`: the measurements of all records, record by record;
      every sample appears once, so the list is as long as all records together, and
      every rate is a stored, positive one. */
  function Flatten(records: seq<HeartRateRecord>): (flat: seq<HeartRateMeasurement>)
    ensures |flat| == TotalSamples(records)
    ensures PositiveRates(flat)
  {
    if records == [] then []
    else
      var head, rest := RecordMeasurements(records[0]), Flatten(records[1..]);
      PositiveRatesConcat(head, rest);
      head + rest
  }

  function TotalSamples(records: seq<HeartRateRecord>): nat
  {
    if records == [] then 0 else |records[0].samples| + TotalSamples(records[1..])
  }

  /** A measurement is in the flattened list exactly when it is the tagged form of
      some sample of some record. */
  lemma {:induction false} FlattenMembers(records: seq<HeartRateRecord>, m: HeartRateMeasurement)
    ensures m in Flatten(records) <==>
      exists k, j :: (0 <= k < |records| && 0 <= j < |records[k].samples| &&
        m == HeartRateMeasurement(records[k].samples[j].beatsPerMinute, records[k].samples[j].time, records[k].dataOrigin))
  {
    if records != [] {
      FlattenMembers(records[1..], m);
      var head := RecordMeasurements(records[0]);
      if m in head {
        var j :| 0 <= j < |head| && head[j] == m;
        assert records[0].samples[j].time == m.timestamp;
      }
      if exists k, j :: (0 <= k < |records| && 0 <= j < |records[k].samples| &&
        m == HeartRateMeasurement(records[k].samples[j].beatsPerMinute, records[k].samples[j].time, records[k].dataOrigin))
      {
        var k, j :| 0 <= k < |records| && 0 <= j < |records[k].samples| &&
          m == HeartRateMeasurement(records[k].samples[j].beatsPerMinute, records[k].samples[j].time, records[k].dataOrigin);
        if k == 0 {
          assert head[j] == m;
        } else {
          assert records[1..][k - 1] == records[k];
        }
      }
    }
  }

  /** readHeartRateData over [startTime, endTime]: the permission gate, then every
      sample of every record read, tagged with its record's origin and stably sorted by
      timestamp; a failed read becomes an Error carrying its cause. */
  function ReadHeartRateData(query: PermissionQuery, store: HeartRateStore, startTime: int, endTime: int)
    : (r: HealthDataResult<seq<HeartRateMeasurement>>)
    ensures r == PermissionDenied <==> !HasAllPermissions(query)
    ensures HasAllPermissions(query) && store(startTime, endTime).ReadFailed? ==>
      r == Error(ReadFailedMessage, Some(store(startTime, endTime).cause))
    ensures r.Success? <==> HasAllPermissions(query) && store(startTime, endTime).Records?
    ensures r.Success? ==>
      var flat := Flatten(store(startTime, endTime).records);
      && SortedByTime(r.data)
      && multiset(r.data) == multiset(flat)
      && (forall t :: AtTime(r.data, t) == AtTime(flat, t))
      && PositiveRates(r.data)
    ensures !r.NotAvailable?
  {
    if !HasAllPermissions(query) then PermissionDenied
    else
      match store(startTime, endTime)
      case ReadFailed(cause) => Error(ReadFailedMessage, Some(cause))
      case Records(records) =>
        var flat := Flatten(records);
        PositiveRatesPermutation(flat, SortByTimestamp(flat));
        Success(SortByTimestamp(flat))
  }

  /** The read list is exactly the unique stable sorted arrangement of the samples:
      any list that is sorted by time and keeps the flatten order among equal
      timestamps is the one returned. */
  lemma ReadHeartRateDataCanonical(query: PermissionQuery, store: HeartRateStore, startTime: int, endTime: int,
                                   other: seq<HeartRateMeasurement>)
    requires HasAllPermissions(query) && store(startTime, endTime).Records?
    requires SortedByTime(other)
    requires forall t :: AtTime(other, t) == AtTime(Flatten(store(startTime, endTime).records), t)
    ensures ReadHeartRateData(query, store, startTime, endTime) == Success(other)
  {
    var r := ReadHeartRateData(query, store, startTime, endTime);
    SortedUnique(r.data, other);
  }

  // ---------------------------------------------------------------------------
  // HRV metrics

  /** `60000.0 / bpm`: the R-R interval of a beat at a given rate. */
  function IntervalMillis(beatsPerMinute: int): (ms: real)
    requires beatsPerMinute > 0
    ensures ms > 0.0
    ensures ms * (beatsPerMinute as real) == MillisPerMinute
  {
    DivMulCancel(MillisPerMinute, beatsPerMinute as real);
    MillisPerMinute / (beatsPerMinute as real)
  }

  /** A faster heart rate means shorter intervals. */
  lemma IntervalMillisDecreasing(slower: int, faster: int)
    requires 0 < slower < faster
    ensures IntervalMillis(faster) < IntervalMillis(slower)
  {
    var a, b := IntervalMillis(slower), IntervalMillis(faster);
    assert a * (slower as real) == b * (faster as real);
    InverseOrder(a, b, slower as real, faster as real);
  }

  lemma InverseOrder(a: real, b: real, s: real, f: real)
    requires 0.0 < s < f && b > 0.0
    requires a * s == b * f
    ensures b < a
  {
    assert b * s < b * f;
    assert b * s < a * s;
  }

  /** `heartRates.map { 60000.0 / it.beatsPerMinute }`: one interval per measurement,
      in the same order. */
  function RRIntervals(heartRates: seq<HeartRateMeasurement>): (rr: seq<real>)
    requires PositiveRates(heartRates)
    ensures |rr| == |heartRates|
    ensures forall i :: 0 <= i < |rr| ==> rr[i] == IntervalMillis(heartRates[i].beatsPerMinute)
  {
    seq(|heartRates|, i requires 0 <= i < |heartRates| => IntervalMillis(heartRates[i].beatsPerMinute))
  }

  /** Metrics of a list of R-R intervals, stamped with the instant of computation. */
  function MetricsOf(rr: seq<real>, computedAt: int): (metrics: HRVMetrics)
    ensures metrics.rrIntervalCount == |rr|
    ensures metrics.timestamp == computedAt
    ensures metrics.rmssdSquared >= 0.0 && metrics.sdnnSquared >= 0.0
    ensures 0.0 <= metrics.pnn50 <= 100.0
  {
    HRVMetrics(RmssdSquared(rr), SdnnSquared(rr), Pnn50(rr), computedAt, |rr|)
  }

  /** The body of calculateHRVMetrics after the read: pass a failure through, reject
      fewer than two measurements, otherwise compute the metrics of the derived
      R-R intervals. */
  function MetricsFromRead(read: HealthDataResult<seq<HeartRateMeasurement>>, computedAt: int)
    : (r: HealthDataResult<HRVMetrics>)
    requires read.Success? ==> PositiveRates(read.data)
    ensures read.PermissionDenied? ==> r == PermissionDenied
    ensures read.Error? ==> r == Error(read.message, read.exception)
    ensures read.NotAvailable? ==> r == Error(UnknownErrorMessage, None)
    ensures read.Success? && |read.data| < 2 ==> r == Error(InsufficientDataMessage, None)
    ensures r.Success? <==> read.Success? && |read.data| >= 2
    ensures r.Success? ==>
      && r.data.IsValid()
      && r.data.rrIntervalCount == |read.data|
      && r.data.timestamp == computedAt
      && r.data.rmssdSquared == RmssdSquared(RRIntervals(read.data))
      && r.data.sdnnSquared == SdnnSquared(RRIntervals(read.data))
      && r.data.pnn50 == Pnn50(RRIntervals(read.data))
  {
    match read
    case PermissionDenied => PermissionDenied
    case Error(message, exception) => Error(message, exception)
    case NotAvailable => Error(UnknownErrorMessage)
    case Success(heartRates) =>
      if |heartRates| < 2 then Error(InsufficientDataMessage)
      else Success(MetricsOf(RRIntervals(heartRates), computedAt))
  }

  /** calculateHRVMetrics over [startTime, endTime]; `computedAt` is the clock reading
      stamped on the metrics. */
  function CalculateHRVMetrics(query: PermissionQuery, store: HeartRateStore, startTime: int, endTime: int,
                               computedAt: int)
    : (r: HealthDataResult<HRVMetrics>)
    ensures r == PermissionDenied <==> !HasAllPermissions(query)
    ensures HasAllPermissions(query) && store(startTime, endTime).ReadFailed? ==>
      r == Error(ReadFailedMessage, Some(store(startTime, endTime).cause))
    ensures HasAllPermissions(query) && store(startTime, endTime).Records? ==>
      var count := TotalSamples(store(startTime, endTime).records);
      && (count < 2 ==> r == Error(InsufficientDataMessage, None))
      && (count >= 2 ==> r.Success? && r.data.rrIntervalCount == count)
    ensures r.Success? ==> r.data.IsValid() && r.data.timestamp == computedAt
    ensures !r.NotAvailable?
  {
    var read := ReadHeartRateData(query, store, startTime, endTime);
    if read.Success? then
      assert |read.data| == TotalSamples(store(startTime, endTime).records) by {
        assert |multiset(read.data)| == |multiset(Flatten(store(startTime, endTime).records))|;
      }
      MetricsFromRead(read, computedAt)
    else
      MetricsFromRead(read, computedAt)
  }

  /** The metrics are computed from the rates in time order: the intervals are those
      of the stably sorted measurements, whatever order the store returned them in. */
  lemma CalculateHRVMetricsOverSortedRates(query: PermissionQuery, store: HeartRateStore, startTime: int,
                                           endTime: int, computedAt: int)
    requires HasAllPermissions(query) && store(startTime, endTime).Records?
    requires TotalSamples(store(startTime, endTime).records) >= 2
    ensures var sorted := SortByTimestamp(Flatten(store(startTime, endTime).records));
      && PositiveRates(sorted)
      && CalculateHRVMetrics(query, store, startTime, endTime, computedAt)
         == Success(MetricsOf(RRIntervals(sorted), computedAt))
  {
    var read := ReadHeartRateData(query, store, startTime, endTime);
    assert |multiset(read.data)| == |multiset(Flatten(store(startTime, endTime).records))|;
  }

  /** Start of the window that ends at `endTime` and reaches `hoursBack` hours back. */
  function WindowStart(endTime: int, hoursBack: int): (startTime: int)
    ensures endTime - startTime == hoursBack * MillisPerHour
    ensures hoursBack >= 0 ==> startTime <= endTime
  {
    endTime - hoursBack * MillisPerHour
  }

  /** getRecentHRVMetrics: the metrics of the last `hoursBack` hours before `now`. */
  function GetRecentHRVMetrics(query: PermissionQuery, store: HeartRateStore, now: int, computedAt: int,
                               hoursBack: int := DefaultHoursBack)
    : (r: HealthDataResult<HRVMetrics>)
    ensures r == CalculateHRVMetrics(query, store, now - hoursBack * MillisPerHour, now, computedAt)
    ensures r.Success? ==> r.data.IsValid() && r.data.timestamp == computedAt
    ensures r == PermissionDenied <==> !HasAllPermissions(query)
  {
    CalculateHRVMetrics(query, store, WindowStart(now, hoursBack), now, computedAt)
  }

  /** With no number of hours given, the window is the last day: 86,400,000 ms. */
  lemma DefaultWindowIsOneDay(query: PermissionQuery, store: HeartRateStore, now: int, computedAt: int)
    ensures GetRecentHRVMetrics(query, store, now, computedAt)
         == CalculateHRVMetrics(query, store, now - 86400000, now, computedAt)
  {
  }
}
