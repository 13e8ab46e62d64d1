/** The screen-facing state holder of the health feature: eight observable fields,
    overwritten by handlers that each dispatch on a health-data result. Each handler
    is one sequential method that receives the result its coroutine would await. */
module HealthViewModels {
  import opened HealthModels
  import HealthConnectRepository

  const PermissionDeniedMessage: string := "Permission denied. Please grant Health Connect permissions."
  const NotAvailableMessage: string := "Health Connect is not available on this device."
  const StartFailedMessage: string := "Failed to start monitoring. Is your Wear device connected?"

  /** A snapshot of the eight observable fields. */
  datatype ViewState = ViewState(
    healthConnectAvailable: bool,
    hasPermissions: bool,
    wearDeviceConnected: bool,
    hrvMetrics: Option<HRVMetrics>,
    heartRateData: seq<HeartRateMeasurement>,
    currentHeartRate: Option<int>,
    isMonitoring: bool,
    errorMessage: Option<string>)

  const InitialState: ViewState :=
    ViewState(false, false, false, None, [], None, false, None)

  /** A result from the live heart-rate stream of the wearable. */
  type LiveItem = HealthDataResult<HeartRateMeasurement>

  // ---------------------------------------------------------------------------
  // The live stream, as a specification over the items received so far

  /** One live item: a measurement becomes the current rate and is appended to the
      list, an error replaces the message, anything else is ignored. */
  function LiveStep(state: ViewState, item: LiveItem): ViewState
  {
    match item
    case Success(m) =>
      state.(currentHeartRate := Some(m.beatsPerMinute), heartRateData := state.heartRateData + [m])
    case Error(message, _) => state.(errorMessage := Some(message))
    case _ => state
  }

  /** The state after collecting `items`, one after another. The list only grows,
      by at most one measurement per item, and the fields the collector never writes
      keep their values. */
  function LiveFold(state: ViewState, items: seq<LiveItem>): (after: ViewState)
    ensures state.heartRateData <= after.heartRateData
    ensures |after.heartRateData| <= |state.heartRateData| + |items|
    ensures after.healthConnectAvailable == state.healthConnectAvailable
    ensures after.hasPermissions == state.hasPermissions
    ensures after.wearDeviceConnected == state.wearDeviceConnected
    ensures after.hrvMetrics == state.hrvMetrics
    ensures after.isMonitoring == state.isMonitoring
  {
    if items == [] then state
    else LiveStep(LiveFold(state, items[..|items| - 1]), items[|items| - 1])
  }

  /** The measurements carried by the live items, in arrival order. */
  function LiveSamples(items: seq<LiveItem>): (samples: seq<HeartRateMeasurement>)
    ensures |samples| <= |items|
  {
    if items == [] then []
    else (if items[0].Success? then [items[0].data] else []) + LiveSamples(items[1..])
  }

  /** The error messages carried by the live items, in arrival order. */
  function LiveErrors(items: seq<LiveItem>): (messages: seq<string>)
    ensures |messages| <= |items|
  {
    if items == [] then []
    else (if items[0].Error? then [items[0].message] else []) + LiveErrors(items[1..])
  }

  /** The rate of the last measurement received, or `prior` when none arrived. */
  function LatestRate(items: seq<LiveItem>, prior: Option<int>): Option<int>
  {
    var samples := LiveSamples(items);
    if samples == [] then prior else Some(samples[|samples| - 1].beatsPerMinute)
  }

  /** The message of the last error received, or `prior` when none arrived. */
  function LatestError(items: seq<LiveItem>, prior: Option<string>): Option<string>
  {
    var errors := LiveErrors(items);
    if errors == [] then prior else Some(errors[|errors| - 1])
  }

  lemma {:induction false} LiveSamplesConcat(a: seq<LiveItem>, b: seq<LiveItem>)
    ensures LiveSamples(a + b) == LiveSamples(a) + LiveSamples(b)
  {
    if a != [] {
      assert (a + b)[1..] == a[1..] + b;
      LiveSamplesConcat(a[1..], b);
    } else {
      assert a + b == b;
    }
  }

  lemma {:induction false} LiveErrorsConcat(a: seq<LiveItem>, b: seq<LiveItem>)
    ensures LiveErrors(a + b) == LiveErrors(a) + LiveErrors(b)
  {
    if a != [] {
      assert (a + b)[1..] == a[1..] + b;
      LiveErrorsConcat(a[1..], b);
    } else {
      assert a + b == b;
    }
  }

  lemma LiveSingle(item: LiveItem)
    ensures LiveSamples([item]) == if item.Success? then [item.data] else []
    ensures LiveErrors([item]) == if item.Error? then [item.message] else []
  {
    assert [item][1..] == [];
  }

  /** Every live measurement is kept: one sample per `Success` item and no more. */
  lemma {:induction false} LiveSamplesAllSuccess(items: seq<LiveItem>)
    ensures |LiveSamples(items)| == |items| <==> forall i :: 0 <= i < |items| ==> items[i].Success?
  {
    if items != [] {
      LiveSamplesAllSuccess(items[1..]);
      if forall i :: 0 <= i < |items| ==> items[i].Success? {
        assert forall i :: 0 <= i < |items[1..]| ==> items[1..][i].Success? by {
          forall i | 0 <= i < |items[1..]|
            ensures items[1..][i].Success?
          {
            assert items[1..][i] == items[i + 1];
          }
        }
      }
      if |LiveSamples(items)| == |items| {
        assert items[0].Success?;
        forall i | 0 <= i < |items|
          ensures items[i].Success?
        {
          if i > 0 {
            assert items[i] == items[1..][i - 1];
          }
        }
      }
    }
  }

  /** Collecting the live items appends their measurements to the list. */
  lemma {:induction false} LiveFoldData(state: ViewState, items: seq<LiveItem>)
    ensures LiveFold(state, items).heartRateData == state.heartRateData + LiveSamples(items)
  {
    if items != [] {
      var init, last := items[..|items| - 1], items[|items| - 1];
      assert items == init + [last];
      LiveFoldData(state, init);
      LiveSamplesConcat(init, [last]);
      LiveSingle(last);
    }
  }

  /** The current rate after collecting is the last live measurement's rate. */
  lemma {:induction false} LiveFoldRate(state: ViewState, items: seq<LiveItem>)
    ensures LiveFold(state, items).currentHeartRate == LatestRate(items, state.currentHeartRate)
  {
    if items != [] {
      var init, last := items[..|items| - 1], items[|items| - 1];
      assert items == init + [last];
      LiveFoldRate(state, init);
      LiveSamplesConcat(init, [last]);
      LiveSingle(last);
      var before := LiveFold(state, init);
      assert LiveFold(state, items) == LiveStep(before, last);
      if last.Success? {
        var samples := LiveSamples(items);
        assert samples == LiveSamples(init) + [last.data];
        assert samples[|samples| - 1] == last.data;
      } else {
        assert LiveSamples(items) == LiveSamples(init);
        assert LiveStep(before, last).currentHeartRate == before.currentHeartRate;
      }
    }
  }

  /** The message after collecting is the last live error's message. */
  lemma {:induction false} LiveFoldError(state: ViewState, items: seq<LiveItem>)
    ensures LiveFold(state, items).errorMessage == LatestError(items, state.errorMessage)
  {
    if items != [] {
      var init, last := items[..|items| - 1], items[|items| - 1];
      assert items == init + [last];
      LiveFoldError(state, init);
      LiveErrorsConcat(init, [last]);
      LiveSingle(last);
      if last.Error? {
        assert LiveErrors(items) == LiveErrors(init) + [last.message];
      } else {
        assert LiveErrors(items) == LiveErrors(init);
      }
    }
  }

  /** Collecting the live items appends their measurements to the list, makes the
      last one's rate current and leaves the last error message; no other field moves. */
  lemma LiveFoldEffect(state: ViewState, items: seq<LiveItem>)
    ensures LiveFold(state, items) == state.(
      heartRateData := state.heartRateData + LiveSamples(items),
      currentHeartRate := LatestRate(items, state.currentHeartRate),
      errorMessage := LatestError(items, state.errorMessage))
  {
    LiveFoldData(state, items);
    LiveFoldRate(state, items);
    LiveFoldError(state, items);
  }

  /** After any live measurement, the current rate is the rate of the list's last
      element. */
  lemma LiveRateMatchesList(state: ViewState, items: seq<LiveItem>)
    requires LiveSamples(items) != []
    ensures var after := LiveFold(state, items);
      after.heartRateData != [] &&
      after.currentHeartRate == Some(after.heartRateData[|after.heartRateData| - 1].beatsPerMinute)
  {
    LiveFoldEffect(state, items);
  }

  // ---------------------------------------------------------------------------
  // The state holder

  class HealthViewModel {
    var healthConnectAvailable: bool
    var hasPermissions: bool
    var wearDeviceConnected: bool
    var hrvMetrics: Option<HRVMetrics>
    var heartRateData: seq<HeartRateMeasurement>
    var currentHeartRate: Option<int>
    var isMonitoring: bool
    var errorMessage: Option<string>

    function State(): ViewState
      reads this
    {
      ViewState(healthConnectAvailable, hasPermissions, wearDeviceConnected, hrvMetrics,
                heartRateData, currentHeartRate, isMonitoring, errorMessage)
    }

    /** Stored metrics, when present, come from at least two intervals. */
    predicate MetricsValid()
      reads this
    {
      hrvMetrics.Some? ==> hrvMetrics.value.IsValid()
    }

    /** Every flag false, nothing stored. The availability, permission and device
        checks launched at construction are the three Check methods below. */
    constructor()
      ensures State() == InitialState
      ensures MetricsValid()
    {
      healthConnectAvailable := false;
      hasPermissions := false;
      wearDeviceConnected := false;
      hrvMetrics := None;
      heartRateData := [];
      currentHeartRate := None;
      isMonitoring := false;
      errorMessage := None;
    }

    /** `available` is whether the health store reports its SDK as available. */
    method CheckHealthConnectAvailability(available: bool)
      modifies this
      ensures State() == old(State()).(healthConnectAvailable := available)
    {
      healthConnectAvailable := available;
    }

    method CheckPermissions(query: HealthConnectRepository.PermissionQuery)
      modifies this
      ensures State() == old(State()).(hasPermissions := HealthConnectRepository.HasAllPermissions(query))
    {
      hasPermissions := HealthConnectRepository.HasAllPermissions(query);
    }

    method CheckWearDevice(connected: bool)
      modifies this
      ensures State() == old(State()).(wearDeviceConnected := connected)
    {
      wearDeviceConnected := connected;
    }

    /** calculateHRVMetrics, given the result of the recent-metrics computation. */
    method CalculateHRVMetrics(result: HealthDataResult<HRVMetrics>)
      modifies this
      ensures result.Success? ==>
        State() == old(State()).(hrvMetrics := Some(result.data), errorMessage := None)
      ensures result.Error? ==>
        State() == old(State()).(errorMessage := Some(result.message))
      ensures result.PermissionDenied? ==>
        State() == old(State()).(errorMessage := Some(PermissionDeniedMessage), hasPermissions := false)
      ensures result.NotAvailable? ==>
        State() == old(State()).(errorMessage := Some(NotAvailableMessage))
      ensures old(MetricsValid()) && (result.Success? ==> result.data.IsValid()) ==> MetricsValid()
    {
      match result
      case Success(metrics) =>
        hrvMetrics := Some(metrics);
        errorMessage := None;
      case Error(message, _) =>
        errorMessage := Some(message);
      case PermissionDenied =>
        errorMessage := Some(PermissionDeniedMessage);
        hasPermissions := false;
      case NotAvailable =>
        errorMessage := Some(NotAvailableMessage);
    }

    /** loadHeartRateData, given the result of reading the window ending now. */
    method LoadHeartRateData(result: HealthDataResult<seq<HeartRateMeasurement>>)
      modifies this
      ensures result.Success? ==>
        State() == old(State()).(
          heartRateData := result.data,
          errorMessage := None,
          currentHeartRate :=
            if result.data == [] then old(currentHeartRate)
            else Some(result.data[|result.data| - 1].beatsPerMinute))
      ensures result.Error? ==>
        State() == old(State()).(errorMessage := Some(result.message))
      ensures result.PermissionDenied? ==>
        State() == old(State()).(errorMessage := Some(PermissionDeniedMessage), hasPermissions := false)
      ensures result.NotAvailable? ==>
        State() == old(State()).(errorMessage := Some(NotAvailableMessage))
    {
      match result
      case Success(measurements) =>
        heartRateData := measurements;
        errorMessage := None;
        if measurements != [] {
          currentHeartRate := Some(measurements[|measurements| - 1].beatsPerMinute);
        }
      case Error(message, _) =>
        errorMessage := Some(message);
      case PermissionDenied =>
        errorMessage := Some(PermissionDeniedMessage);
        hasPermissions := false;
      case NotAvailable =>
        errorMessage := Some(NotAvailableMessage);
    }

    /** The update made for one item of the live stream. */
    method ApplyLiveItem(item: LiveItem)
      modifies this
      ensures item.Success? ==>
        State() == old(State()).(
          currentHeartRate := Some(item.data.beatsPerMinute),
          heartRateData := old(heartRateData) + [item.data])
      ensures item.Error? ==> State() == old(State()).(errorMessage := Some(item.message))
      ensures item.PermissionDenied? || item.NotAvailable? ==> State() == old(State())
    {
      match item
      case Success(m) =>
        currentHeartRate := Some(m.beatsPerMinute);
        heartRateData := heartRateData + [m];
      case Error(message, _) =>
        errorMessage := Some(message);
      case _ =>
    }

    /** startWearMonitoring: `started` is the wearable's answer to the start request
        and `items` the part of the live stream collected so far. */
    method StartWearMonitoring(started: bool, items: seq<LiveItem>)
      modifies this
      ensures started ==>
        State() == LiveFold(old(State()).(isMonitoring := true, errorMessage := None), items)
      ensures started ==>
        && isMonitoring
        && heartRateData == old(heartRateData) + LiveSamples(items)
        && currentHeartRate == LatestRate(items, old(currentHeartRate))
        && errorMessage == LatestError(items, None)
      ensures !started ==> State() == old(State()).(errorMessage := Some(StartFailedMessage))
    {
      if started {
        isMonitoring := true;
        errorMessage := None;
        ghost var start := State();
        var i := 0;
        while i < |items|
          invariant 0 <= i <= |items|
          invariant State() == LiveFold(start, items[..i])
        {
          assert items[..i + 1][..i] == items[..i];
          ApplyLiveItem(items[i]);
          i := i + 1;
        }
        assert items[..i] == items;
        LiveFoldEffect(start, items);
      } else {
        errorMessage := Some(StartFailedMessage);
      }
    }

    /** stopWearMonitoring: monitoring stops whatever the wearable answers. */
    method StopWearMonitoring()
      modifies this
      ensures State() == old(State()).(isMonitoring := false)
    {
      isMonitoring := false;
    }

    method ClearError()
      modifies this
      ensures State() == old(State()).(errorMessage := None)
    {
      errorMessage := None;
    }
  }

  /** Metrics produced by the repository never break the view model's invariant: every
      successful computation carries metrics from at least two intervals. */
  lemma RepositoryMetricsValid(query: HealthConnectRepository.PermissionQuery,
                               store: HealthConnectRepository.HeartRateStore,
                               now: int, computedAt: int, hoursBack: int)
    ensures var r := HealthConnectRepository.GetRecentHRVMetrics(query, store, now, computedAt, hoursBack);
      r.Success? ==> r.data.IsValid() && r.data.rrIntervalCount >= 2
  {
  }
}
