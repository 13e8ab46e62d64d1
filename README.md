# Stress-relief HRV pipeline in Dafny

This project models the heart-rate-variability (HRV) pipeline of the stress-relief
Android app and proves properties of the model. The pipeline has four parts:

- **Estimators** (`hrv_calculator.dfy`, module `HRVCalculator`). These compute RMSSD,
  SDNN and PNN50 over an ordered list of R-R intervals in milliseconds. They are
  pure functions over `real`.
- **Value types** (`health_models.dfy`, module `HealthModels`). These are
  `HeartRateMeasurement`, `RRInterval`, `HRVMetrics` with `IsValid`, and the
  four-way `HealthDataResult`.
- **Health-store gateway** (`health_connect_repository.dfy`, module
  `HealthConnectRepository`, and `stable_sort.dfy`, module `MeasurementOrder`).
  It covers:
  - the permission gate;
  - flattening the stored records and stably sorting them by timestamp;
  - deriving R-R intervals as 60000/bpm;
  - assembling the metrics;
  - the recent-hours window.

  The store is foreign I/O, so it appears through its outcomes. The
  granted-permission query is either a set of permissions or a failure. The store
  is a total function from a time range to either a list of records or a read
  failure.
- **View-model state machine** (`health_view_model.dfy`, module
  `HealthViewModels`, class `HealthViewModel`). It holds the eight observable
  fields and has one method per handler. Each method receives the result that its
  coroutine would have awaited. Collecting the live stream is a `while` loop over
  the items received so far. The loop is proved against a fold over those items,
  and that fold is characterised by filter functions.

Instants are epoch milliseconds (`int`). Both clock readings are parameters:

- `now`, the end of the recent window;
- `computedAt`, the timestamp stamped on the metrics.

Three facts about the code shape the model:

- **Sorting.** `sortedBy` is stable, so two samples with the same timestamp keep
  their flatten order. The read output is therefore the same for every
  arrangement of the samples only in two cases:
  - when the timestamps are distinct (`SortPermutationInvariant`);
  - when the order within each instant is unchanged (`SortDependsOnlyOnTies`).
- **Insufficient data.** `calculateHRVMetrics` reports fewer than two measurements
  as `Error("Insufficient heart rate data for HRV calculation")`.
- **Pass-through.** `calculateHRVMetrics` returns `PermissionDenied` and `Error`
  from the read unchanged, but turns `NotAvailable` into `Error("Unknown error")`.

## Model

| member | source | states |
|---|---|---|
| HRVCalculator.SuccessiveDiffs | app/src/main/java/com/amves/stressrelief/biometric/core/HRVCalculator.kt:24 | one difference `rr[i+1]-rr[i]` per successive pair, n-1 of them, none for fewer than two intervals |
| HRVCalculator.AbsSuccessiveDiffs | app/src/main/java/com/amves/stressrelief/biometric/core/HRVCalculator.kt:49 | one absolute difference per successive pair, n-1 of them |
| HRVCalculator.RmssdSquared | app/src/main/java/com/amves/stressrelief/biometric/core/HRVCalculator.kt:22-27 | RMSSD squared is 0 for fewer than two intervals; otherwise times (n-1) it is the sum of squared successive differences; never negative |
| HRVCalculator.SdnnSquared | app/src/main/java/com/amves/stressrelief/biometric/core/HRVCalculator.kt:35-39 | SDNN squared is 0 for an empty list and never negative |
| HRVCalculator.Percentage | app/src/main/java/com/amves/stressrelief/biometric/core/HRVCalculator.kt:51 | the share is within [0,100], is 0 exactly when the count is 0, is 100 exactly when the count is the total, and times the total is 100 times the count |
| HRVCalculator.Pnn50 | app/src/main/java/com/amves/stressrelief/biometric/core/HRVCalculator.kt:45-52 | PNN50 is 0 for fewer than two intervals, lies in [0,100], and equals 100·count/(n-1) |
| HRVCalculator.CountAboveThreshold | app/src/main/java/com/amves/stressrelief/biometric/core/HRVCalculator.kt:50 | the number of differences strictly above 50 ms never exceeds the number of differences |
| HRVCalculator.CountZeroIff | app/src/main/java/com/amves/stressrelief/biometric/core/HRVCalculator.kt:50 | the count is 0 exactly when no difference is strictly above 50 |
| HRVCalculator.CountAllIff | app/src/main/java/com/amves/stressrelief/biometric/core/HRVCalculator.kt:50 | the count is the length exactly when every difference is strictly above 50 |
| HRVCalculator.RmssdSquaredZeroIffConstant | app/src/main/java/com/amves/stressrelief/biometric/core/HRVCalculator.kt:23-26 | with two or more intervals, RMSSD is 0 exactly when all intervals are equal |
| HRVCalculator.RmssdSquaredReverse | app/src/main/java/com/amves/stressrelief/biometric/core/HRVCalculator.kt:24-26 | reversing the intervals leaves RMSSD unchanged |
| HRVCalculator.RmssdSquaredShift | app/src/main/java/com/amves/stressrelief/biometric/core/HRVCalculator.kt:24-26 | adding a constant to every interval leaves RMSSD unchanged |
| HRVCalculator.SdnnSquaredZeroIffConstant | app/src/test/java/com/amves/stressrelief/biometric/core/HRVCalculatorTest.kt:48-58 | for a non-empty list, SDNN is 0 exactly when all intervals are equal, including a single interval |
| HRVCalculator.SdnnSquaredMeanOfSquares | app/src/main/java/com/amves/stressrelief/biometric/core/HRVCalculator.kt:37-38 | SDNN squared is the population variance, the mean of squares minus the square of the mean (divided by n, not n-1) |
| HRVCalculator.SdnnSquaredShift | app/src/main/java/com/amves/stressrelief/biometric/core/HRVCalculator.kt:37-38 | adding a constant to every interval leaves SDNN unchanged |
| HRVCalculator.Pnn50ZeroIff | app/src/main/java/com/amves/stressrelief/biometric/core/HRVCalculator.kt:49-51 | with two or more intervals, PNN50 is 0 exactly when no absolute successive difference exceeds 50 ms |
| HRVCalculator.Pnn50HundredIff | app/src/main/java/com/amves/stressrelief/biometric/core/HRVCalculator.kt:49-51 | with two or more intervals, PNN50 is 100 exactly when every absolute successive difference exceeds 50 ms |
| HRVCalculator.Pnn50Reverse | app/src/main/java/com/amves/stressrelief/biometric/core/HRVCalculator.kt:49 | PNN50 uses absolute differences, so reversing the intervals (turning rises into falls) leaves it unchanged |
| HRVCalculator.RmssdSquaredExamples | app/src/test/java/com/amves/stressrelief/biometric/core/HRVCalculatorTest.kt:10-40 | [800,850] gives 2500 (RMSSD 50), [800,810,805,815] gives 75, a single interval gives 0 |
| HRVCalculator.SdnnSquaredConstantExamples | app/src/test/java/com/amves/stressrelief/biometric/core/HRVCalculatorTest.kt:43-58 | an empty list, a single interval and identical intervals all give 0 |
| HRVCalculator.SdnnSquaredVaryingExample | app/src/test/java/com/amves/stressrelief/biometric/core/HRVCalculatorTest.kt:61-70 | [800,810,790,820] gives 125 (mean 805) |
| HRVCalculator.Pnn50ExtremeExamples | app/src/test/java/com/amves/stressrelief/biometric/core/HRVCalculatorTest.kt:73-97 | an empty list and one interval give 0; steps of 10 ms give 0; steps of 100 ms give 100 |
| HRVCalculator.Pnn50HalfExample | app/src/test/java/com/amves/stressrelief/biometric/core/HRVCalculatorTest.kt:101-106 | [800,860,870,930,940] gives 50 |
| HRVCalculator.Pnn50FallingExample | app/src/test/java/com/amves/stressrelief/biometric/core/HRVCalculatorTest.kt:110-116 | [900,800,750,850] gives 200/3: falling steps count by their absolute size |
| HRVCalculator.Pnn50BoundaryExamples | app/src/test/java/com/amves/stressrelief/biometric/core/HRVCalculatorTest.kt:120-133 | steps of exactly 50 ms give 0, steps of 51 ms give 100 |
| HealthModels.MeasurementDefaultSource | app/src/main/java/com/amves/stressrelief/data/health/models/HealthModels.kt:8-12 | a measurement built without a source has source "Unknown" |
| HealthModels.ErrorDefaultCause | app/src/main/java/com/amves/stressrelief/data/health/models/HealthModels.kt:43 | an error built without a cause carries none |
| HealthModels.HRVMetrics.IsValid | app/src/main/java/com/amves/stressrelief/data/health/models/HealthModels.kt:35 | metrics are valid exactly when computed from at least two R-R intervals |
| HealthModels.ResultCasesExclusive | app/src/main/java/com/amves/stressrelief/data/health/models/HealthModels.kt:41-46 | every result is exactly one of Success, Error, PermissionDenied, NotAvailable |
| MeasurementOrder.SortByTimestamp | app/src/main/java/com/amves/stressrelief/data/health/HealthConnectRepository.kt:87 | the output is sorted ascending by timestamp, is a permutation of the input, and keeps the input order among equal timestamps (stable) |
| MeasurementOrder.SortedUnique | app/src/main/java/com/amves/stressrelief/data/health/HealthConnectRepository.kt:87 | two sorted lists with the same measurements in the same order at every instant are equal, so the stable sorted arrangement is unique |
| MeasurementOrder.SortDependsOnlyOnTies | app/src/main/java/com/amves/stressrelief/data/health/HealthConnectRepository.kt:87 | inputs that agree on the order within each instant sort to the same list |
| MeasurementOrder.SortSortedIdentity | app/src/main/java/com/amves/stressrelief/data/health/HealthConnectRepository.kt:87 | sorting an already sorted list returns it unchanged |
| MeasurementOrder.SortPermutationInvariant | app/src/main/java/com/amves/stressrelief/data/health/HealthConnectRepository.kt:79-87 | with pairwise distinct timestamps, every permutation of the samples sorts to the same list |
| HealthConnectRepository.HasAllPermissions | app/src/main/java/com/amves/stressrelief/data/health/HealthConnectRepository.kt:36-59 | true exactly when the query succeeded and granted both heart-rate read and HRV-RMSSD read; a failed query gives false |
| HealthConnectRepository.HasAllPermissionsMonotone | app/src/main/java/com/amves/stressrelief/data/health/HealthConnectRepository.kt:55 | granting more permissions never withdraws access |
| HealthConnectRepository.RecordMeasurements | app/src/main/java/com/amves/stressrelief/data/health/HealthConnectRepository.kt:80-85 | one measurement per sample, in sample order, with the sample's rate and time and the record's origin as source |
| HealthConnectRepository.FlattenMembers | app/src/main/java/com/amves/stressrelief/data/health/HealthConnectRepository.kt:79-86 | a measurement is in the flattened list exactly when it is some sample of some record, tagged with that record's origin |
| HealthConnectRepository.Flatten | app/src/main/java/com/amves/stressrelief/data/health/HealthConnectRepository.kt:78-86 | the flattened list holds as many measurements as all records have samples, and every rate in it is a stored, positive rate |
| HealthConnectRepository.ReadHeartRateData | app/src/main/java/com/amves/stressrelief/data/health/HealthConnectRepository.kt:64-93 | PermissionDenied exactly when permissions are missing, whatever the store holds (no read); a failed read gives Error("Failed to read heart rate data") with its cause; otherwise Success with a sorted, stable permutation of the flattened samples, all rates positive; never NotAvailable |
| HealthConnectRepository.ReadHeartRateDataCanonical | app/src/main/java/com/amves/stressrelief/data/health/HealthConnectRepository.kt:79-89 | any list that is sorted and keeps the flatten order among equal timestamps is exactly the list read |
| HealthConnectRepository.IntervalMillis | app/src/main/java/com/amves/stressrelief/data/health/HealthConnectRepository.kt:149-151 | the interval of a positive rate is positive, and the interval times the rate is 60000 ms |
| HealthConnectRepository.IntervalMillisDecreasing | app/src/main/java/com/amves/stressrelief/data/health/HealthConnectRepository.kt:150 | a faster rate gives a strictly shorter interval |
| HealthConnectRepository.RRIntervals | app/src/main/java/com/amves/stressrelief/data/health/HealthConnectRepository.kt:149-151 | one interval per measurement, in the same order, each the interval of that measurement's rate |
| HealthConnectRepository.MetricsOf | app/src/main/java/com/amves/stressrelief/data/health/HealthConnectRepository.kt:154-164 | the interval count is the list length, the timestamp is the computation instant, both squares are non-negative, and PNN50 is within [0,100] |
| HealthConnectRepository.MetricsFromRead | app/src/main/java/com/amves/stressrelief/data/health/HealthConnectRepository.kt:135-166 | PermissionDenied and Error pass through unchanged; NotAvailable becomes Error("Unknown error"); fewer than two measurements give Error("Insufficient heart rate data for HRV calculation"); otherwise Success with valid metrics whose count is the number of measurements and whose values are the three estimators of the derived intervals |
| HealthConnectRepository.CalculateHRVMetrics | app/src/main/java/com/amves/stressrelief/data/health/HealthConnectRepository.kt:127-170 | in terms of the store: PermissionDenied exactly when permissions are missing, the read error on a failed read, the insufficient-data error for fewer than two samples, otherwise Success with count equal to the number of samples; every Success is valid and stamped with the computation instant; never NotAvailable |
| HealthConnectRepository.CalculateHRVMetricsOverSortedRates | app/src/main/java/com/amves/stressrelief/data/health/HealthConnectRepository.kt:143-166 | with two or more samples, the metrics are those of the intervals of the samples in stable timestamp order |
| HealthConnectRepository.WindowStart | app/src/main/java/com/amves/stressrelief/data/health/HealthConnectRepository.kt:177 | the window ends `hoursBack` hours (of 3,600,000 ms) after it starts, and is not reversed for a non-negative number of hours |
| HealthConnectRepository.GetRecentHRVMetrics | app/src/main/java/com/amves/stressrelief/data/health/HealthConnectRepository.kt:175-179 | the metrics computation over [now - hoursBack hours, now]; every Success is valid; PermissionDenied exactly when permissions are missing |
| HealthConnectRepository.DefaultWindowIsOneDay | app/src/main/java/com/amves/stressrelief/data/health/HealthConnectRepository.kt:175 | without a number of hours, the window is the last 86,400,000 ms |
| HealthViewModels.LiveSamplesConcat | app/src/main/java/com/amves/stressrelief/ui/viewmodels/HealthViewModel.kt:150-155 | the measurements of two stretches of the live stream are those of each, in order |
| HealthViewModels.LiveSamplesAllSuccess | app/src/main/java/com/amves/stressrelief/ui/viewmodels/HealthViewModel.kt:152-159 | one measurement is kept per item exactly when every item is a Success |
| HealthViewModels.LiveFoldData | app/src/main/java/com/amves/stressrelief/ui/viewmodels/HealthViewModel.kt:154 | each live measurement is appended at the end of the list, in arrival order |
| HealthViewModels.LiveFoldRate | app/src/main/java/com/amves/stressrelief/ui/viewmodels/HealthViewModel.kt:153 | the current rate is the last live measurement's rate, or the earlier rate when none arrived |
| HealthViewModels.LiveFoldError | app/src/main/java/com/amves/stressrelief/ui/viewmodels/HealthViewModel.kt:156-158 | the message is the last live error's message, or the earlier message when none arrived |
| HealthViewModels.LiveFold | app/src/main/java/com/amves/stressrelief/ui/viewmodels/HealthViewModel.kt:150-160 | collecting only appends to the list, at most one measurement per item, and leaves the three check flags, the metrics and the monitoring flag alone |
| HealthViewModels.LiveFoldEffect | app/src/main/java/com/amves/stressrelief/ui/viewmodels/HealthViewModel.kt:150-161 | collecting the live items appends their measurements, makes the last one's rate current, leaves the last error's message, and touches no other field |
| HealthViewModels.LiveRateMatchesList | app/src/main/java/com/amves/stressrelief/ui/viewmodels/HealthViewModel.kt:152-155 | after any live measurement, the current rate is the rate of the last element of the list |
| HealthViewModels.RepositoryMetricsValid | app/src/main/java/com/amves/stressrelief/ui/viewmodels/HealthViewModel.kt:88-92 | metrics delivered by the recent-metrics computation always come from at least two intervals |
| HealthViewModels.HealthViewModel.constructor | app/src/main/java/com/amves/stressrelief/ui/viewmodels/HealthViewModel.kt:26-48 | all four flags false, no metrics, no current rate, no error, an empty list |
| HealthViewModels.HealthViewModel.CheckHealthConnectAvailability | app/src/main/java/com/amves/stressrelief/ui/viewmodels/HealthViewModel.kt:59-63 | stores the availability answer and changes nothing else |
| HealthViewModels.HealthViewModel.CheckPermissions | app/src/main/java/com/amves/stressrelief/ui/viewmodels/HealthViewModel.kt:68-72 | stores the permission check's answer and changes nothing else |
| HealthViewModels.HealthViewModel.CheckWearDevice | app/src/main/java/com/amves/stressrelief/ui/viewmodels/HealthViewModel.kt:77-81 | stores the device answer and changes nothing else |
| HealthViewModels.HealthViewModel.CalculateHRVMetrics | app/src/main/java/com/amves/stressrelief/ui/viewmodels/HealthViewModel.kt:86-105 | Success stores the metrics and clears the error; Error sets its message and keeps the metrics; PermissionDenied sets the permission message and clears hasPermissions; NotAvailable sets the availability message; nothing else changes; valid metrics keep the stored metrics valid |
| HealthViewModels.HealthViewModel.LoadHeartRateData | app/src/main/java/com/amves/stressrelief/ui/viewmodels/HealthViewModel.kt:110-137 | Success replaces the list, clears the error, and sets the current rate to the last element's rate only when the list is non-empty; the failure cases are as for the metrics handler |
| HealthViewModels.HealthViewModel.ApplyLiveItem | app/src/main/java/com/amves/stressrelief/ui/viewmodels/HealthViewModel.kt:151-160 | a live Success makes its rate current and appends it; a live Error sets its message; other items change nothing |
| HealthViewModels.HealthViewModel.StartWearMonitoring | app/src/main/java/com/amves/stressrelief/ui/viewmodels/HealthViewModel.kt:142-166 | a successful start sets monitoring, clears the error, then applies every collected item in order; a failed start only sets the "Failed to start monitoring" message and leaves monitoring unchanged |
| HealthViewModels.HealthViewModel.StopWearMonitoring | app/src/main/java/com/amves/stressrelief/ui/viewmodels/HealthViewModel.kt:171-176 | monitoring becomes false, whatever the device answers, and nothing else changes |
| HealthViewModels.HealthViewModel.ClearError | app/src/main/java/com/amves/stressrelief/ui/viewmodels/HealthViewModel.kt:181-183 | the error becomes absent and nothing else changes |

## Left out

- RmssdSquared: returns RMSSD squared, not RMSSD, because Dafny's reals have no square root. Square root is monotone on non-negative values, so the zero, ordering and invariance results carry over to the root.
- SdnnSquared: returns SDNN squared (the population variance), for the same reason.
- Floating-point rounding is not modelled. The estimators use exact reals, so the tests' 0.0001 tolerance is not needed.
- The health store SDK calls are not modelled: the availability status, the granted-permission query, the record read and the lazily created client. Their outcomes are inputs.
- The store function answers every time range, a reversed or empty one included. The model does not decide whether the platform's time-range filter rejects a reversed range, because that check belongs to the platform library. A store that rejects the range answers `ReadFailed`, which the read reports as its error. A store that does not reject it may return records.
- The outer `catch` of `calculateHRVMetrics` ("Failed to calculate HRV metrics") is not modelled. Nothing inside that `try` can fail in the model: the read already returns its failures as results, and every rate read is at least 1 bpm.
- RRIntervals: requires every rate to be positive. The code does not guard against 0 bpm, which would give an infinite interval. Every rate the read returns is a stored rate, so the requirement always holds on that path.
- Stored rates are assumed positive (the `StoredBeatsPerMinute` type). The repository does not check this. A store holding a rate of 0 or less, and the infinite interval it would give, is not modelled.
- `Instant` overflow when the window is subtracted is not modelled. Instants are unbounded integers.
- `readHRVData` is not modelled. It maps HRV records without logic beyond the same permission gate.
- `streamHeartRateData` is not modelled. It is an endless emit-and-delay loop driven by time and cancellation.
- The wearable data service is not modelled: capability lookup, messages and the data listener. The view model receives its answers and the items of its live stream as arguments.
- StartWearMonitoring: handles a finite prefix of the live stream, because the stream is unbounded and collecting it never returns while monitoring is on.
- Coroutine launching and `StateFlow` publication in the view model are not modelled. Each handler is one sequential method, so interleavings of concurrently launched handlers are not covered.
- `init` is not modelled as a step. Its three checks are coroutines launched after construction, so the constructor establishes the initial state and the three Check methods model the checks.
- `refreshData` is not modelled. It only launches the three checks and the two loads concurrently.
- LoadHeartRateData: receives the read result. The window it reads, [now - hoursBack hours, now], is `WindowStart` in the gateway.
- CalculateHRVMetrics (view model): receives the result of the recent-metrics computation.
