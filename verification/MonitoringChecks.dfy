/** Required checks and metric severity from one recorded monitoring session, over real numbers. */
module MonitoringChecks {
  import opened Contracts
  import opened Ordering
  import opened Obligations

  datatype EvidenceState = Measured | NoData | Pending | Missing | Errored | Unsupported | Disabled

  datatype Scope = SiteScope | DeviceScope

  /** A collection error: its text, and the metric an older collector named in front of it. */
  datatype CollectionError = CollectionError(text: Name, metric: Option<Name>)

  /** One recorded SLE baseline or observation. */
  datatype SleSample = SleSample(
    capturedAt: int,
    scope: Scope,
    scopeId: Option<Name>,
    values: map<Name, real>,
    sampleCounts: map<Name, real>,
    noData: set<Name>,
    errors: seq<CollectionError>,
    metricErrors: map<Name, Name>,
    metricStates: map<Name, EvidenceState>)

  /** The error of each metric an error names, the collector's own entries winning. */
  function MetricErrors(sample: SleSample): map<Name, Name> {
    NamedErrors(sample.errors) + sample.metricErrors
  }

  function NamedErrors(errors: seq<CollectionError>): map<Name, Name> {
    if errors == [] then map[]
    else
      var last := errors[|errors| - 1];
      var before := NamedErrors(errors[..|errors| - 1]);
      if last.metric.Some? then before[last.metric.value := last.text] else before
  }

  function StateOf(sample: Option<SleSample>, metric: Name): EvidenceState {
    match sample
    case None => Pending
    case Some(s) =>
      if metric in MetricErrors(s) then Errored
      else if metric in s.noData || (metric in s.sampleCounts && s.sampleCounts[metric] == 0.0) then NoData
      else if metric in s.values && s.values[metric] == 0.0
              && (if metric in s.sampleCounts then s.sampleCounts[metric] else 0.0) <= 0.0 then Missing
      else if metric in s.metricStates then
        (if s.metricStates[metric] == Measured && metric !in s.values then Missing else s.metricStates[metric])
      else if metric in s.values then Measured
      else Missing
  }

  predicate SameScope(baseline: Option<SleSample>, latest: Option<SleSample>) {
    && baseline.Some? && latest.Some?
    && baseline.value.scope == latest.value.scope && baseline.value.scopeId == latest.value.scopeId
  }

  /** Two decimals, halves to even. */
  function RoundHundredth(x: real): real {
    var scaled := x * 100.0;
    var low := scaled.Floor;
    var part := scaled - low as real;
    (if part < 0.5 then low else if part > 0.5 then low + 1 else if low % 2 == 0 then low else low + 1) as real / 100.0
  }

  datatype MetricCheck = MetricCheck(
    before: EvidenceState,
    after: EvidenceState,
    valueBefore: Option<real>,
    valueAfter: Option<real>,
    delta: Option<real>,
    comparable: bool)

  function MeasuredValue(sample: Option<SleSample>, metric: Name): Option<real> {
    if sample.Some? && StateOf(sample, metric) == Measured && metric in sample.value.values
    then Some(sample.value.values[metric]) else None
  }

  function CheckMetric(baseline: Option<SleSample>, latest: Option<SleSample>, metric: Name): MetricCheck {
    var valueBefore := MeasuredValue(baseline, metric);
    var valueAfter := MeasuredValue(latest, metric);
    var comparable := SameScope(baseline, latest) && valueBefore.Some? && valueAfter.Some?;
    MetricCheck(StateOf(baseline, metric), StateOf(latest, metric), valueBefore, valueAfter,
                if comparable then Some(RoundHundredth(valueAfter.value - valueBefore.value)) else None, comparable)
  }

  predicate IsObserved(state: EvidenceState) {
    state == Measured || state == NoData
  }

  /** The required-check treatment table. */
  function CheckStatus(check: MetricCheck, policy: EmptyPolicy): Status {
    if !IsObserved(check.before) then Status(Unsatisfied, Some(BaselineState))
    else if !IsObserved(check.after) then Status(Unsatisfied, Some(LatestState))
    else if check.before == check.after == Measured then
      (if check.comparable then Status(Satisfied, None) else Status(Unsatisfied, Some(NotComparable)))
    else if check.before == check.after == NoData then
      (if policy == NotExercisedPolicy then Status(NotExercised, None) else Status(Unsatisfied, Some(NoDataEither)))
    else Status(Unsatisfied, Some(if check.before == Measured then DataDisappeared else NoBaselineData))
  }

  const WARNING_DELTA := 10.0
  const CRITICAL_DELTA := 25.0

  predicate FellBy(baseline: Option<SleSample>, latest: Option<SleSample>, metrics: set<Name>, amount: real) {
    exists m | m in metrics ::
      CheckMetric(baseline, latest, m).delta.Some? && CheckMetric(baseline, latest, m).delta.value <= -amount
  }

  /** A collection error that no unselected metric explains. */
  predicate UnexplainedError(sample: Option<SleSample>, metrics: set<Name>) {
    sample.Some? && exists e | e in sample.value.errors ::
      !exists m | m in MetricErrors(sample.value) && m !in metrics :: MetricErrors(sample.value)[m] == e.text
  }

  /** One observation's severity over the selected metrics. */
  function MetricSeverity(baseline: Option<SleSample>, latest: Option<SleSample>, metrics: set<Name>): Band {
    if FellBy(baseline, latest, metrics, CRITICAL_DELTA) then Critical
    else if FellBy(baseline, latest, metrics, WARNING_DELTA) then Warning
    else
      var measured := exists m | m in metrics :: CheckMetric(baseline, latest, m).delta.Some?;
      var failed := (exists m | m in metrics ::
                       !IsObserved(StateOf(baseline, m)) || !IsObserved(StateOf(latest, m)))
                    || UnexplainedError(baseline, metrics) || UnexplainedError(latest, metrics);
      if measured && !failed then NoImpact else Info
  }

  /** A check is satisfied exactly when both sides measured the metric on one scope, and the two values are there. */
  lemma SatisfiedMeansMeasured(baseline: Option<SleSample>, latest: Option<SleSample>, metric: Name, policy: EmptyPolicy)
    ensures CheckStatus(CheckMetric(baseline, latest, metric), policy).value == Satisfied
       <==> && StateOf(baseline, metric) == Measured && StateOf(latest, metric) == Measured
            && SameScope(baseline, latest)
            && metric in baseline.value.values && metric in latest.value.values
  {
    // A measured state rests on a recorded value.
    assert baseline.Some? && StateOf(baseline, metric) == Measured ==> metric in baseline.value.values;
  }

  /** A stricter empty policy never turns an unsatisfied check into anything better, and changes nothing but an
      empty pair of windows. */
  lemma PolicyOnlyDecidesEmptyWindows(check: MetricCheck)
    ensures var lenient, strict := CheckStatus(check, NotExercisedPolicy), CheckStatus(check, IncompletePolicy);
            if check.before == NoData && check.after == NoData
            then lenient.value == NotExercised && strict.value == Unsatisfied
            else lenient == strict
    ensures ValidStatus(CheckStatus(check, NotExercisedPolicy)) && ValidStatus(CheckStatus(check, IncompletePolicy))
  {
  }

  /** No impact means every selected metric was observed on both sides and none fell by a warning. */
  lemma NoImpactIsClean(baseline: Option<SleSample>, latest: Option<SleSample>, metrics: set<Name>, m: Name)
    requires MetricSeverity(baseline, latest, metrics) == NoImpact && m in metrics
    ensures IsObserved(StateOf(baseline, m)) && IsObserved(StateOf(latest, m))
    ensures var check := CheckMetric(baseline, latest, m); check.delta.Some? ==> check.delta.value > -WARNING_DELTA
    ensures exists n :: n in metrics && CheckMetric(baseline, latest, n).delta.Some?
  {
    var check := CheckMetric(baseline, latest, m);
    assert check.delta.Some? && check.delta.value <= -WARNING_DELTA ==> FellBy(baseline, latest, metrics, WARNING_DELTA);
  }


  // The tables, by what was recorded.

  /** Rounding is to the nearest hundredth, and to the even one of two equally near. */
  lemma RoundsToNearest(x: real) returns (n: int)
    ensures RoundHundredth(x) == n as real / 100.0
    ensures -0.5 <= x * 100.0 - n as real <= 0.5
    ensures x * 100.0 - n as real == 0.5 || x * 100.0 - n as real == -0.5 ==> n % 2 == 0
  {
    var scaled := x * 100.0;
    var low := scaled.Floor;
    var part := scaled - low as real;
    n := if part < 0.5 then low else if part > 0.5 then low + 1 else if low % 2 == 0 then low else low + 1;
  }

  /** An error names the metric: an entry of the collector's own, or a text in front of which the metric stands. */
  ghost predicate ErrorNames(s: SleSample, metric: Name) {
    metric in s.metricErrors || exists e :: e in s.errors && e.metric == Some(metric)
  }

  lemma {:induction false} NamedErrorsName(errors: seq<CollectionError>, metric: Name)
    ensures metric in NamedErrors(errors) <==> exists e :: e in errors && e.metric == Some(metric)
  {
    if errors != [] {
      var before, last := errors[..|errors| - 1], errors[|errors| - 1];
      NamedErrorsName(before, metric);
      assert errors == before + [last];
    }
  }

  /** Counted as empty: listed so, or with a sample count of zero. */
  predicate CountedEmpty(s: SleSample, metric: Name) {
    metric in s.noData || (metric in s.sampleCounts && s.sampleCounts[metric] == 0.0)
  }

  /** A value of zero that no sample backs. */
  predicate BackedByNothing(s: SleSample, metric: Name) {
    && metric in s.values && s.values[metric] == 0.0
    && (metric !in s.sampleCounts || s.sampleCounts[metric] <= 0.0)
  }

  /** When a metric counts as measured and when as empty; any other state is no observation. */
  lemma StateExactly(sample: Option<SleSample>, metric: Name)
    ensures StateOf(sample, metric) == Measured
       <==> && sample.Some? && metric in sample.value.values
            && !ErrorNames(sample.value, metric) && !CountedEmpty(sample.value, metric)
            && !BackedByNothing(sample.value, metric)
            && (metric in sample.value.metricStates ==> sample.value.metricStates[metric] == Measured)
    ensures StateOf(sample, metric) == NoData
       <==> && sample.Some? && !ErrorNames(sample.value, metric)
            && (CountedEmpty(sample.value, metric)
                || (!BackedByNothing(sample.value, metric) && metric in sample.value.metricStates
                    && sample.value.metricStates[metric] == NoData))
    ensures StateOf(sample, metric) == Pending
       <==> sample.None? || (OwnState(sample.value, metric) && sample.value.metricStates[metric] == Pending)
    ensures StateOf(sample, metric) == Errored
       <==> sample.Some? && (ErrorNames(sample.value, metric)
                             || (OwnState(sample.value, metric) && sample.value.metricStates[metric] == Errored))
  {
    if sample.Some? {
      NamedErrorsName(sample.value.errors, metric);
    }
  }

  /** The state the collector recorded for the metric decides. */
  ghost predicate OwnState(s: SleSample, metric: Name) {
    && metric in s.metricStates
    && !ErrorNames(s, metric) && !CountedEmpty(s, metric) && !BackedByNothing(s, metric)
  }

  /** The two values of a metric measured on both sides of one scope. */
  predicate BothMeasured(baseline: Option<SleSample>, latest: Option<SleSample>, metric: Name) {
    && StateOf(baseline, metric) == Measured && StateOf(latest, metric) == Measured
    && baseline.value.scope == latest.value.scope && baseline.value.scopeId == latest.value.scopeId
  }

  /** The metric was measured on both sides and fell by this much, rounded. */
  ghost predicate Fell(baseline: Option<SleSample>, latest: Option<SleSample>, metric: Name, amount: real) {
    && BothMeasured(baseline, latest, metric)
    && metric in baseline.value.values && metric in latest.value.values
    && RoundHundredth(latest.value.values[metric] - baseline.value.values[metric]) <= -amount
  }

  ghost predicate SomeFell(baseline: Option<SleSample>, latest: Option<SleSample>, metrics: set<Name>, amount: real) {
    exists m :: m in metrics && Fell(baseline, latest, m, amount)
  }

  /** Every selected metric was observed on both sides, and each error is explained by a metric not selected. */
  ghost predicate NothingFailed(baseline: Option<SleSample>, latest: Option<SleSample>, metrics: set<Name>) {
    && (forall m | m in metrics :: StateOf(baseline, m) in {Measured, NoData} && StateOf(latest, m) in {Measured, NoData})
    && ErrorsExplained(baseline, metrics) && ErrorsExplained(latest, metrics)
  }

  ghost predicate ErrorsExplained(sample: Option<SleSample>, metrics: set<Name>) {
    sample.Some? ==> forall e | e in sample.value.errors ::
                       exists m :: m in MetricErrors(sample.value) && m !in metrics
                                   && MetricErrors(sample.value)[m] == e.text
  }

  lemma FellMeans(baseline: Option<SleSample>, latest: Option<SleSample>, metrics: set<Name>, amount: real)
    ensures FellBy(baseline, latest, metrics, amount) <==> SomeFell(baseline, latest, metrics, amount)
  {
    forall m
      ensures CheckMetric(baseline, latest, m).delta.Some? && CheckMetric(baseline, latest, m).delta.value <= -amount
         <==> Fell(baseline, latest, m, amount)
    {
      StateExactly(baseline, m);
      StateExactly(latest, m);
    }
  }

  /** One observation's severity: critical exactly when a selected metric fell by 25, a warning exactly when one fell by 10
      and none by 25, none exactly when one was compared, none fell by 10 and nothing failed, and otherwise info. */
  lemma SeverityExactly(baseline: Option<SleSample>, latest: Option<SleSample>, metrics: set<Name>)
    ensures var band := MetricSeverity(baseline, latest, metrics);
            && (band == Critical <==> SomeFell(baseline, latest, metrics, 25.0))
            && (band == Warning
                <==> SomeFell(baseline, latest, metrics, 10.0) && !SomeFell(baseline, latest, metrics, 25.0))
            && (band == NoImpact
                <==> !SomeFell(baseline, latest, metrics, 10.0) && NothingFailed(baseline, latest, metrics)
                     && exists m :: m in metrics && BothMeasured(baseline, latest, m))
  {
    FellMeans(baseline, latest, metrics, 25.0);
    FellMeans(baseline, latest, metrics, 10.0);
    FailedMeans(baseline, latest, metrics);
    forall m
      ensures CheckMetric(baseline, latest, m).delta.Some? <==> BothMeasured(baseline, latest, m)
    {
      StateExactly(baseline, m);
      StateExactly(latest, m);
    }
    if SomeFell(baseline, latest, metrics, 25.0) {
      var m :| m in metrics && Fell(baseline, latest, m, 25.0);
      assert Fell(baseline, latest, m, 10.0);
    }
  }

  lemma FailedMeans(baseline: Option<SleSample>, latest: Option<SleSample>, metrics: set<Name>)
    ensures NothingFailed(baseline, latest, metrics)
       <==> !((exists m | m in metrics :: !IsObserved(StateOf(baseline, m)) || !IsObserved(StateOf(latest, m)))
              || UnexplainedError(baseline, metrics) || UnexplainedError(latest, metrics))
  {
    assert UnexplainedError(baseline, metrics) <==> !ErrorsExplained(baseline, metrics);
    assert UnexplainedError(latest, metrics) <==> !ErrorsExplained(latest, metrics);
  }

  /** Every check that is unsatisfied says why: which side was not observed, that the two cannot be compared, that neither
      had data where that does not do, or on which side alone it had. */
  lemma ReasonExactly(baseline: Option<SleSample>, latest: Option<SleSample>, metric: Name, policy: EmptyPolicy)
    ensures var before, after := StateOf(baseline, metric), StateOf(latest, metric);
            var reason := CheckStatus(CheckMetric(baseline, latest, metric), policy).reason;
            && (reason == Some(BaselineState) <==> before !in {Measured, NoData})
            && (reason == Some(LatestState) <==> before in {Measured, NoData} && after !in {Measured, NoData})
            && (reason == Some(NotComparable)
                <==> before == Measured && after == Measured && !BothMeasured(baseline, latest, metric))
            && (reason == Some(NoDataEither) <==> before == NoData && after == NoData && policy == IncompletePolicy)
            && (reason == Some(DataDisappeared) <==> before == Measured && after == NoData)
            && (reason == Some(NoBaselineData) <==> before == NoData && after == Measured)
  {
    StateExactly(baseline, metric);
    StateExactly(latest, metric);
  }
}
