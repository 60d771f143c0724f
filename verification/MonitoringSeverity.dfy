/** A device's bands in terms of what its session recorded, and what its checks and an obligation over several devices say. */
module MonitoringSeverity {
  import opened Contracts
  import opened Ordering
  import opened Obligations
  import opened Conclusions
  import opened MonitoringChecks
  import opened MonitoringReplay
  import opened MonitoringStatuses
  import Deployment

  // The session and its samples.

  /** A session of this audit on the device, created by the evidence instant. */
  predicate OwnSession(r: MonitoringRecord, frame: Frame, mac: Name) {
    frame.auditId in r.auditIds && r.createdAt <= frame.asOf && r.mac == mac
  }

  /** The session replayed is the one of them created last. */
  lemma SessionExactly(sessions: seq<MonitoringRecord>, frame: Frame, mac: Name)
    ensures SessionOf(sessions, frame, mac).None? <==> forall r | r in sessions :: !OwnSession(r, frame, mac)
    ensures forall s | SessionOf(sessions, frame, mac) == Some(s) ::
              && s in sessions && OwnSession(s, frame, mac)
              && forall r | r in sessions && OwnSession(r, frame, mac) ::
                   r.createdAt < s.createdAt || (r.createdAt == s.createdAt && NameLeq(r.sessionId, s.sessionId))
  {
    SessionIsLatest(sessions, frame, mac);
    assert forall r :: LinkedTo(frame, mac)(r) <==> OwnSession(r, frame, mac);
  }

  /** The last sample recorded of those taken by the evidence instant. */
  ghost predicate LastTaken(record: MonitoringRecord, frame: Frame, o: SleSample) {
    exists k :: 0 <= k < |record.observations| && record.observations[k] == o && o.capturedAt <= frame.asOf
                && forall l | k < l < |record.observations| :: record.observations[l].capturedAt > frame.asOf
  }

  lemma {:induction false} LastOfTaken(observations: seq<SleSample>, asOf: int)
    ensures var taken := Filter(observations, TakenBy(asOf));
            && (taken == [] <==> forall k | 0 <= k < |observations| :: observations[k].capturedAt > asOf)
            && (taken != [] ==>
                  exists k :: 0 <= k < |observations| && observations[k] == taken[|taken| - 1]
                              && observations[k].capturedAt <= asOf
                              && forall l | k < l < |observations| :: observations[l].capturedAt > asOf)
  {
    if observations != [] {
      var before, last := observations[..|observations| - 1], observations[|observations| - 1];
      assert observations == before + [last];
      LastOfTaken(before, asOf);
      FilterSnoc(before, last, TakenBy(asOf));
      if last.capturedAt <= asOf {
        assert observations[|before|] == last;
      } else {
        var taken := Filter(before, TakenBy(asOf));
        assert taken + [] == taken;
        if taken != [] {
          var k :| 0 <= k < |before| && before[k] == taken[|taken| - 1] && before[k].capturedAt <= asOf
                   && forall l | k < l < |before| :: before[l].capturedAt > asOf;
          assert observations[k] == before[k];
        }
      }
    }
  }

  lemma LatestExactly(record: MonitoringRecord, frame: Frame)
    ensures Latest(Some(record), frame).None? <==> forall o | o in record.observations :: o.capturedAt > frame.asOf
    ensures forall o | Latest(Some(record), frame) == Some(o) :: LastTaken(record, frame, o)
  {
    LastOfTaken(record.observations, frame.asOf);
  }

  /** A check on a device: unsatisfied without a session, on one shared with another audit, or on one not ended by the
      evidence instant, each for that reason; otherwise what the baseline and the last sample make of it. */
  lemma DeviceCheckExactly(record: Option<MonitoringRecord>, frame: Frame, metric: Name, policy: EmptyPolicy)
    ensures var s := DeviceCheck(record, frame, metric, policy);
            if record.None? then s == Status(Unsatisfied, Some(NoSession))
            else if record.value.auditIds != [frame.auditId] then s == Status(Unsatisfied, Some(SharedSession))
            else if record.value.active || (record.value.completedAt.Some? && record.value.completedAt.value > frame.asOf)
            then s == Status(Unsatisfied, Some(SessionActive))
            else s == CheckStatus(CheckMetric(record.value.baseline, Latest(record, frame), metric), policy)
  {
  }

  // What the session states.

  predicate SelectedIncident(i: IncidentRecord, selection: Selection, frame: Frame) {
    && i.eventType in selection.incidentTypes
    && frame.changedAt - frame.changedAt % 1000 <= i.occurredAt && i.occurredAt <= frame.asOf
  }

  predicate Compared(c: ComparisonRecord, frame: Frame) {
    c.followupAt.Some? && c.followupAt.value <= frame.asOf
  }

  /** The comparison's later findings were recorded by the evidence instant. */
  predicate LaterKnown(c: ComparisonRecord, frame: Frame) {
    c.latestAt.Some? && c.latestAt.value <= frame.asOf && c.currentFindings.Some?
  }

  /** The findings that stand: the later ones if they were recorded by then, else the initial ones. */
  function Standing(c: ComparisonRecord, frame: Frame): seq<FindingRecord> {
    if LaterKnown(c, frame) then c.currentFindings.value else c.findings
  }

  ghost predicate FindingShows(findings: seq<FindingRecord>, kinds: set<Name>, b: Band) {
    exists f :: f in findings && f.kind in kinds && f.severity == b
  }

  /** A sample of the selected metrics showed the band. */
  ghost predicate MetricShowed(b: Band, selection: Selection, record: MonitoringRecord, frame: Frame) {
    && selection.checks.Keys != {}
    && exists o :: o in record.observations && o.capturedAt <= frame.asOf
                   && MetricSeverity(record.baseline, Some(o), selection.checks.Keys) == b
  }

  /** The last sample did. */
  ghost predicate MetricShows(b: Band, selection: Selection, record: MonitoringRecord, frame: Frame) {
    && selection.checks.Keys != {}
    && exists o :: LastTaken(record, frame, o) && MetricSeverity(record.baseline, Some(o), selection.checks.Keys) == b
  }

  /** An incident of a selected type since the change did. */
  ghost predicate IncidentShowed(b: Band, selection: Selection, record: MonitoringRecord, frame: Frame) {
    exists i :: i in record.incidents && SelectedIncident(i, selection, frame) && i.severity == b
  }

  /** One that was not resolved by the evidence instant did. */
  ghost predicate IncidentShows(b: Band, selection: Selection, record: MonitoringRecord, frame: Frame) {
    exists i :: i in record.incidents && SelectedIncident(i, selection, frame)
                && (i.resolvedAt.Some? ==> i.resolvedAt.value > frame.asOf) && i.severity == b
  }

  /** A finding of a selected kind in a followed comparison did. */
  ghost predicate FindingShowed(b: Band, selection: Selection, record: MonitoringRecord, frame: Frame) {
    exists c :: c in record.comparisons && Compared(c, frame)
                && (FindingShows(c.findings, selection.findingKinds, b)
                    || FindingShows(Standing(c, frame), selection.findingKinds, b))
  }

  /** One that stands did. */
  ghost predicate FindingStands(b: Band, selection: Selection, record: MonitoringRecord, frame: Frame) {
    exists c :: c in record.comparisons && Compared(c, frame)
                && FindingShows(Standing(c, frame), selection.findingKinds, b)
  }

  /** The session ever showed this band. */
  ghost predicate Showed(b: Band, selection: Selection, record: MonitoringRecord, frame: Frame) {
    || MetricShowed(b, selection, record, frame)
    || IncidentShowed(b, selection, record, frame)
    || FindingShowed(b, selection, record, frame)
  }

  /** And shows it still. */
  ghost predicate ShowsStill(b: Band, selection: Selection, record: MonitoringRecord, frame: Frame) {
    || MetricShows(b, selection, record, frame)
    || IncidentShows(b, selection, record, frame)
    || FindingStands(b, selection, record, frame)
  }

  /** The worst band ever shown, none if nothing was. */
  ghost predicate WorstShowed(worst: Band, selection: Selection, record: MonitoringRecord, frame: Frame) {
    && (forall b: Band | Showed(b, selection, record, frame) :: Rank(b) <= Rank(worst))
    && (worst == NoImpact || Showed(worst, selection, record, frame))
  }

  ghost predicate WorstStill(worst: Band, selection: Selection, record: MonitoringRecord, frame: Frame) {
    && (forall b: Band | ShowsStill(b, selection, record, frame) :: Rank(b) <= Rank(worst))
    && (worst == NoImpact || ShowsStill(worst, selection, record, frame))
  }

  // The three components state just that.

  lemma MetricsShowed(c: Component, selection: Selection, record: MonitoringRecord, frame: Frame)
    requires MetricComponent(record.baseline, Observations(Some(record), frame), selection.checks.Keys) == Some(c)
    ensures forall b: Band | MetricShowed(b, selection, record, frame) :: Rank(b) <= Rank(c.peak)
    ensures MetricShowed(c.peak, selection, record, frame)
  {
    var taken := Observations(Some(record), frame);
    FilterMembers(record.observations, TakenBy(frame.asOf));
    MetricComponentMeans(record.baseline, taken, selection.checks.Keys);
    forall b: Band | MetricShowed(b, selection, record, frame)
      ensures Rank(b) <= Rank(c.peak)
    {
      var o :| o in record.observations && o.capturedAt <= frame.asOf
               && MetricSeverity(record.baseline, Some(o), selection.checks.Keys) == b;
      assert o in taken;
    }
    var o :| o in taken && MetricSeverity(record.baseline, Some(o), selection.checks.Keys) == c.peak;
    assert o in record.observations && o.capturedAt <= frame.asOf;
  }

  lemma MetricsShow(c: Component, selection: Selection, record: MonitoringRecord, frame: Frame)
    requires MetricComponent(record.baseline, Observations(Some(record), frame), selection.checks.Keys) == Some(c)
    ensures forall b: Band :: MetricShows(b, selection, record, frame) <==> b == c.current
  {
    var taken := Observations(Some(record), frame);
    CurrentBand(c, record.baseline, taken, selection.checks.Keys);
    var last := taken[|taken| - 1];
    LastIsTaken(record, frame, last);
    forall o | LastTaken(record, frame, o)
      ensures o == last
    {
      OneLastTaken(record, frame, o, last);
    }
  }

  lemma CurrentBand(c: Component, baseline: Option<SleSample>, observations: seq<SleSample>, metrics: set<Name>)
    requires MetricComponent(baseline, observations, metrics) == Some(c)
    ensures metrics != {} && observations != []
    ensures c.current == MetricSeverity(baseline, Some(observations[|observations| - 1]), metrics)
  {
    MetricComponentMeans(baseline, observations, metrics);
  }

  lemma LastIsTaken(record: MonitoringRecord, frame: Frame, last: SleSample)
    requires var taken := Observations(Some(record), frame); taken != [] && last == taken[|taken| - 1]
    ensures LastTaken(record, frame, last)
  {
    LastOfTaken(record.observations, frame.asOf);
  }

  lemma OneLastTaken(record: MonitoringRecord, frame: Frame, o: SleSample, p: SleSample)
    requires LastTaken(record, frame, o) && LastTaken(record, frame, p)
    ensures o == p
  {
    var k :| 0 <= k < |record.observations| && record.observations[k] == o && o.capturedAt <= frame.asOf
             && forall l | k < l < |record.observations| :: record.observations[l].capturedAt > frame.asOf;
    var m :| 0 <= m < |record.observations| && record.observations[m] == p && p.capturedAt <= frame.asOf
             && forall l | m < l < |record.observations| :: record.observations[l].capturedAt > frame.asOf;
  }

  lemma NoMetricsShow(selection: Selection, record: MonitoringRecord, frame: Frame)
    requires MetricComponent(record.baseline, Observations(Some(record), frame), selection.checks.Keys).None?
    ensures forall b: Band :: !MetricShowed(b, selection, record, frame) && !MetricShows(b, selection, record, frame)
  {
    FilterMembers(record.observations, TakenBy(frame.asOf));
    assert forall o | o in record.observations && o.capturedAt <= frame.asOf :: o in Observations(Some(record), frame);
  }

  lemma IncidentsShow(selection: Selection, record: MonitoringRecord, frame: Frame)
    ensures var c := IncidentComponent(record, selection.incidentTypes, frame);
            && (c.Some? ==>
                  && (forall b: Band | IncidentShowed(b, selection, record, frame) :: Rank(b) <= Rank(c.value.peak))
                  && (c.value.peak == NoImpact || IncidentShowed(c.value.peak, selection, record, frame))
                  && (forall b: Band | IncidentShows(b, selection, record, frame) :: Rank(b) <= Rank(c.value.current))
                  && (c.value.current == NoImpact || IncidentShows(c.value.current, selection, record, frame)))
            && (c.None? ==> forall b: Band :: !IncidentShowed(b, selection, record, frame)
                                              && !IncidentShows(b, selection, record, frame))
  {
    var relevant, active := IncidentComponentMeans(record, selection.incidentTypes, frame);
    forall i
      ensures i in relevant <==> i in record.incidents && SelectedIncident(i, selection, frame)
      ensures i in active <==> i in relevant && (i.resolvedAt.Some? ==> i.resolvedAt.value > frame.asOf)
    {
      assert Deployment.ProviderSecond(frame.changedAt) == frame.changedAt - frame.changedAt % 1000;
    }
  }

  lemma {:induction false} FindingBandsCome(findings: seq<FindingRecord>, kinds: set<Name>, b: Band)
    ensures b in FindingBands(findings, kinds) <==> FindingShows(findings, kinds, b)
  {
    if findings != [] {
      FindingBandsCome(findings[1..], kinds, b);
      assert forall f :: f in findings <==> f == findings[0] || f in findings[1..];
    }
  }

  lemma StateShows(c: Option<Component>, selection: Selection, record: MonitoringRecord, frame: Frame)
    requires StateComponentOf(c, record, selection.findingKinds, frame)
    ensures c.Some? ==>
              && (forall b: Band | FindingShowed(b, selection, record, frame) :: Rank(b) <= Rank(c.value.peak))
              && (c.value.peak == NoImpact || FindingShowed(c.value.peak, selection, record, frame))
              && (forall b: Band | FindingStands(b, selection, record, frame) :: Rank(b) <= Rank(c.value.current))
              && (c.value.current == NoImpact || FindingStands(c.value.current, selection, record, frame))
    ensures c.None? ==> forall b: Band :: !FindingShowed(b, selection, record, frame)
                                          && !FindingStands(b, selection, record, frame)
  {
    forall b: Band
      ensures EverShown(b, record.comparisons, selection.findingKinds, frame) <==> FindingShowed(b, selection, record, frame)
      ensures ShowsNow(b, record.comparisons, selection.findingKinds, frame) <==> FindingStands(b, selection, record, frame)
    {
      forall x | x in record.comparisons
        ensures b in FindingBands(x.findings, selection.findingKinds) <==> FindingShows(x.findings, selection.findingKinds, b)
        ensures b in CurrentBands(x, selection.findingKinds, frame)
           <==> FindingShows(Standing(x, frame), selection.findingKinds, b)
      {
        FindingBandsCome(x.findings, selection.findingKinds, b);
        FindingBandsCome(Standing(x, frame), selection.findingKinds, b);
      }
    }
  }

  lemma WorstOfParts(a: Option<Component>, b: Option<Component>, c: Option<Component>, peak: bool)
    ensures var worst := Worst(Bands([a, b, c], peak));
            && (a.Some? ==> Rank(BandOf(a.value, peak)) <= Rank(worst))
            && (b.Some? ==> Rank(BandOf(b.value, peak)) <= Rank(worst))
            && (c.Some? ==> Rank(BandOf(c.value, peak)) <= Rank(worst))
            && (worst == NoImpact || (a.Some? && BandOf(a.value, peak) == worst)
                || (b.Some? && BandOf(b.value, peak) == worst) || (c.Some? && BandOf(c.value, peak) == worst))
  {
    assert [a, b, c][1..] == [b, c] && [b, c][1..] == [c] && [c][1..] == [];
    assert Bands([c], peak) == (if c.Some? then [BandOf(c.value, peak)] else []) + Bands([], peak);
    assert Bands([b, c], peak) == (if b.Some? then [BandOf(b.value, peak)] else []) + Bands([c], peak);
    assert Bands([a, b, c], peak) == (if a.Some? then [BandOf(a.value, peak)] else []) + Bands([b, c], peak);
    WorstBounds(Bands([a, b, c], peak));
  }

  function BandOf(c: Component, peak: bool): Band {
    if peak then c.peak else c.current
  }

  /** A device's bands are exactly the worst its session ever showed and the worst it still shows, of what the obligations
      that reach the device select; and only a session of this audit alone has any. */
  lemma DeviceBandsExactly(d: DeviceMonitoring, mac: Name, selection: Selection, record: Option<MonitoringRecord>,
                           frame: Frame)
    requires ReplayOf(d, mac, selection, record, frame)
    ensures d.peak.Some? <==> record.Some? && record.value.auditIds == [frame.auditId]
    ensures d.current.Some? <==> d.peak.Some?
    ensures d.peak.Some? ==>
              && WorstShowed(d.peak.value, selection, record.value, frame)
              && WorstStill(d.current.value, selection, record.value, frame)
  {
    if record.Some? && Exclusive(record.value, frame) {
      var state :| StateComponentOf(state, record.value, selection.findingKinds, frame)
                   && BandsFrom(d, Components(selection, record, frame, state));
      PartsShow(d, selection, record.value, frame, state);
    }
  }

  lemma PartsShow(d: DeviceMonitoring, selection: Selection, record: MonitoringRecord, frame: Frame,
                  state: Option<Component>)
    requires StateComponentOf(state, record, selection.findingKinds, frame)
    requires BandsFrom(d, Components(selection, Some(record), frame, state))
    ensures WorstShowed(d.peak.value, selection, record, frame) && WorstStill(d.current.value, selection, record, frame)
  {
    var metrics := MetricComponent(record.baseline, Observations(Some(record), frame), selection.checks.Keys);
    var incidents := IncidentComponent(record, selection.incidentTypes, frame);
    assert Components(selection, Some(record), frame, state) == [metrics, incidents, state];
    WorstOfParts(metrics, incidents, state, true);
    WorstOfParts(metrics, incidents, state, false);
    PeakShown(d.peak.value, metrics, incidents, state, selection, record, frame);
    CurrentShown(d.current.value, metrics, incidents, state, selection, record, frame);
  }

  lemma PeakShown(worst: Band, metrics: Option<Component>, incidents: Option<Component>, state: Option<Component>,
                  selection: Selection, record: MonitoringRecord, frame: Frame)
    requires metrics == MetricComponent(record.baseline, Observations(Some(record), frame), selection.checks.Keys)
    requires incidents == IncidentComponent(record, selection.incidentTypes, frame)
    requires StateComponentOf(state, record, selection.findingKinds, frame)
    requires forall c | c in {metrics, incidents, state} && c.Some? :: Rank(c.value.peak) <= Rank(worst)
    requires worst == NoImpact || exists c :: c in {metrics, incidents, state} && c.Some? && c.value.peak == worst
    ensures WorstShowed(worst, selection, record, frame)
  {
    if metrics.Some? {
      MetricsShowed(metrics.value, selection, record, frame);
    } else {
      NoMetricsShow(selection, record, frame);
    }
    IncidentsShow(selection, record, frame);
    StateShows(state, selection, record, frame);
  }

  lemma CurrentShown(worst: Band, metrics: Option<Component>, incidents: Option<Component>, state: Option<Component>,
                     selection: Selection, record: MonitoringRecord, frame: Frame)
    requires metrics == MetricComponent(record.baseline, Observations(Some(record), frame), selection.checks.Keys)
    requires incidents == IncidentComponent(record, selection.incidentTypes, frame)
    requires StateComponentOf(state, record, selection.findingKinds, frame)
    requires forall c | c in {metrics, incidents, state} && c.Some? :: Rank(c.value.current) <= Rank(worst)
    requires worst == NoImpact || exists c :: c in {metrics, incidents, state} && c.Some? && c.value.current == worst
    ensures WorstStill(worst, selection, record, frame)
  {
    if metrics.Some? {
      MetricsShow(metrics.value, selection, record, frame);
    } else {
      NoMetricsShow(selection, record, frame);
    }
    IncidentsShow(selection, record, frame);
    StateShows(state, selection, record, frame);
  }

  // An obligation over several devices.

  /** Of several devices the first failing one is named, and the others that fail are counted. */
  lemma AggregateNames(results: seq<OnDevice>)
    ensures |results| == 1 ==> Aggregate(results) == results[0].status
    ensures results == [] ==> Aggregate(results) == Status(Unsatisfied, Some(NoDeviceMatches))
    ensures |results| > 1 && Aggregate(results).value == Unsatisfied ==>
              exists k :: 0 <= k < |results| && results[k].status.value == Unsatisfied
                          && (forall l | 0 <= l < k :: results[l].status.value != Unsatisfied)
                          && Aggregate(results).reason
                             == Some(FailingDevices(results[k].mac, Failures(results[k + 1..])))
  {
    if |results| > 1 && Aggregate(results).value == Unsatisfied {
      var k := FirstFailing(results);
    }
  }

  function Failures(results: seq<OnDevice>): nat {
    if results == [] then 0
    else (if results[0].status.value == Unsatisfied then 1 else 0) + Failures(results[1..])
  }

  lemma {:induction false} FailuresCount(results: seq<OnDevice>)
    ensures |Failing(results)| == Failures(results)
  {
    if results != [] {
      FailuresCount(results[1..]);
      FailingSplits(results);
    }
  }

  lemma FailingSplits(results: seq<OnDevice>)
    requires results != []
    ensures Failing(results)
         == (if results[0].status.value == Unsatisfied then [results[0]] else []) + Failing(results[1..])
  {
    FilterAgree(results[1..], (r: OnDevice) => r.status.value == Unsatisfied, (r: OnDevice) => r.status.value == Unsatisfied);
  }

  lemma {:induction false} FirstFailing(results: seq<OnDevice>) returns (k: nat)
    requires Failing(results) != []
    ensures k < |results| && results[k].status.value == Unsatisfied && Failing(results)[0] == results[k]
    ensures forall l | 0 <= l < k :: results[l].status.value != Unsatisfied
    ensures |Failing(results)| - 1 == Failures(results[k + 1..])
  {
    FailingSplits(results);
    if results[0].status.value == Unsatisfied {
      k := 0;
      FailuresCount(results[1..]);
    } else {
      assert [] + Failing(results[1..]) == Failing(results[1..]);
      var l := FirstFailing(results[1..]);
      k := l + 1;
      assert results[1..][l + 1..] == results[k + 1..];
    }
  }
}
