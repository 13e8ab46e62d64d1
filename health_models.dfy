/** Value types shared by the HRV pipeline: heart-rate samples, R-R intervals,
    computed metrics and the four-way result of every health-data operation. */
module HealthModels {

  /** Source label given to a measurement built without one. */
  const UnknownSource: string := "Unknown"

  /** Conventional optional value (Kotlin's nullable `T?`). */
  datatype Option<+T> = None | Some(value: T)

  /** A caught exception, reduced to what the model needs of it: a description. */
  datatype Cause = Cause(description: string)

  /** One heart-rate reading; `timestamp` is an epoch instant in milliseconds. */
  datatype HeartRateMeasurement = HeartRateMeasurement(
    beatsPerMinute: int,
    timestamp: int,
    source: string := UnknownSource
  )

  /** An R-R interval in milliseconds with the instant it belongs to. */
  datatype RRInterval = RRInterval(intervalMillis: real, timestamp: int)

  /** Metrics computed from a list of R-R intervals. Dafny has no real square root,
      so the two root-based metrics are kept as their squares: `rmssdSquared` is
      RMSSD squared (the mean square successive difference) and `sdnnSquared` is SDNN
      squared (the population variance). */
  datatype HRVMetrics = HRVMetrics(
    rmssdSquared: real,
    sdnnSquared: real,
    pnn50: real,
    timestamp: int,
    rrIntervalCount: int
  ) {
    /** Metrics are meaningful only when computed from at least two intervals. */
    predicate IsValid(): (valid: bool)
      ensures valid <==> rrIntervalCount >= 2
    {
      rrIntervalCount >= 2
    }
  }

  /** Outcome of every gateway operation: nothing is thrown across the gateway. */
  datatype HealthDataResult<+T> =
    | Success(data: T)
    | Error(message: string, exception: Option<Cause> := None)
    | PermissionDenied
    | NotAvailable

  /** A measurement built without a source is labelled "Unknown". */
  lemma MeasurementDefaultSource(bpm: int, time: int)
    ensures HeartRateMeasurement(bpm, time).source == UnknownSource
    ensures HeartRateMeasurement(bpm, time) == HeartRateMeasurement(bpm, time, "Unknown")
  {
  }

  /** An error built without a cause carries none. */
  lemma ErrorDefaultCause<T>(message: string)
    ensures var e: HealthDataResult<T> := Error(message); e.exception == None
  {
  }

  /** Every result is exactly one of the four cases. */
  lemma ResultCasesExclusive<T>(r: HealthDataResult<T>)
    ensures r.Success? || r.Error? || r.PermissionDenied? || r.NotAvailable?
    ensures r.Success? ==> !r.Error? && !r.PermissionDenied? && !r.NotAvailable?
    ensures r.Error? ==> !r.PermissionDenied? && !r.NotAvailable?
    ensures r.PermissionDenied? ==> !r.NotAvailable?
  {
  }
}
