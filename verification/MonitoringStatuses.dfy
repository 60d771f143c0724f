/** One device's session replayed into statuses and severities, and every monitoring obligation over its devices. */
module MonitoringStatuses {
  import opened Contracts
  import opened Ordering
  import opened Obligations
  import opened Conclusions
  import opened Targeting
  import opened Numbering
  import opened MonitoringChecks
  import opened MonitoringReplay
  import Deployment

  type Frame = Deployment.Frame

  datatype IncidentRecord = IncidentRecord(eventType: Name, occurredAt: int, severity: Band, resolvedAt: Option<int>)

  datatype FindingRecord = FindingRecord(kind: Name, severity: Band)

  datatype ComparisonRecord = ComparisonRecord(
    followupAt: Option<int>,
    findings: seq<FindingRecord>,
    latestAt: Option<int>,
    currentFindings: Option<seq<FindingRecord>>)

  datatype MonitoringRecord = MonitoringRecord(
    sessionId: Name,
    mac: Name,
    site: Name,
    auditIds: seq<Name>,
    createdAt: int,
    active: bool,
    completedAt: Option<int>,
    baseline: Option<SleSample>,
    observations: seq<SleSample>,
    incidents: seq<IncidentRecord>,
    comparisons: seq<ComparisonRecord>)

  // The session a device's replay uses.

  function LinkedTo(frame: Frame, mac: Name): MonitoringRecord -> bool {
    (r: MonitoringRecord) => frame.auditId in r.auditIds && r.createdAt <= frame.asOf && r.mac == mac
  }

  predicate RecordLeq(a: MonitoringRecord, b: MonitoringRecord) {
    a.createdAt < b.createdAt || (a.createdAt == b.createdAt && NameLeq(a.sessionId, b.sessionId))
  }

  /** The latest of this audit's sessions on the device, created by the evidence instant. */
  function SessionOf(sessions: seq<MonitoringRecord>, frame: Frame, mac: Name): Option<MonitoringRecord> {
    var linked := Prioritized(Filter(sessions, LinkedTo(frame, mac)), RecordLeq);
    if linked == [] then None else Some(linked[|linked| - 1])
  }

  lemma SessionIsLatest(sessions: seq<MonitoringRecord>, frame: Frame, mac: Name)
    ensures SessionOf(sessions, frame, mac).None? <==> forall r | r in sessions :: !LinkedTo(frame, mac)(r)
    ensures SessionOf(sessions, frame, mac).Some?
        ==> var s := SessionOf(sessions, frame, mac).value;
            s in sessions && LinkedTo(frame, mac)(s)
            && forall r | r in sessions && LinkedTo(frame, mac)(r) :: RecordLeq(r, s)
  {
    var linked := Filter(sessions, LinkedTo(frame, mac));
    var sorted := Prioritized(linked, RecordLeq);
    FilterMembers(sessions, LinkedTo(frame, mac));
    SortedMembers(linked, RecordLeq);
    RecordOrder();
    PrioritizedOrdered(linked, RecordLeq);
    if sorted != [] {
      assert sorted[|sorted| - 1] in sorted;
      forall r | r in linked {
        LastIsGreatest(sorted, RecordLeq, r);
      }
    } else {
      assert forall r | r in linked :: r in sorted;
    }
  }

  lemma RecordOrder()
    ensures Total(RecordLeq) && Transitive(RecordLeq)
    ensures forall a :: RecordLeq(a, a)
  {
    NameOrder();
    forall a: MonitoringRecord, b: MonitoringRecord, c: MonitoringRecord | RecordLeq(a, b) && RecordLeq(b, c)
      ensures RecordLeq(a, c)
    {
      if a.createdAt == b.createdAt == c.createdAt {
        assert NameLeq(a.sessionId, b.sessionId) && NameLeq(b.sessionId, c.sessionId);
      }
    }
  }

  predicate Exclusive(record: MonitoringRecord, frame: Frame) {
    record.auditIds == [frame.auditId]
  }

  predicate Terminal(record: MonitoringRecord, frame: Frame) {
    !record.active && (record.completedAt.None? || record.completedAt.value <= frame.asOf)
  }

  /** Why the session can resolve nothing, if it cannot. */
  function SessionReason(record: Option<MonitoringRecord>, frame: Frame): Option<Reason> {
    if record.None? then Some(NoSession)
    else if !Exclusive(record.value, frame) then Some(SharedSession)
    else if Terminal(record.value, frame) then None
    else Some(SessionActive)
  }

  function TakenBy(asOf: int): SleSample -> bool {
    (s: SleSample) => s.capturedAt <= asOf
  }

  function Observations(record: Option<MonitoringRecord>, frame: Frame): seq<SleSample> {
    if record.None? then [] else Filter(record.value.observations, TakenBy(frame.asOf))
  }

  function Baseline(record: Option<MonitoringRecord>): Option<SleSample> {
    if record.None? then None else record.value.baseline
  }

  function Latest(record: Option<MonitoringRecord>, frame: Frame): Option<SleSample> {
    var observations := Observations(record, frame);
    if observations == [] then None else Some(observations[|observations| - 1])
  }

  /** One required check on one device. */
  function DeviceCheck(record: Option<MonitoringRecord>, frame: Frame, metric: Name, policy: EmptyPolicy): Status {
    var reason := SessionReason(record, frame);
    if reason.Some? then Status(Unsatisfied, reason)
    else CheckStatus(CheckMetric(Baseline(record), Latest(record, frame), metric), policy)
  }

  lemma DeviceCheckValid(record: Option<MonitoringRecord>, frame: Frame, metric: Name, policy: EmptyPolicy)
    ensures ValidStatus(DeviceCheck(record, frame, metric, policy))
    ensures DeviceCheck(record, frame, metric, policy).value != Unsatisfied
        ==> record.Some? && Exclusive(record.value, frame) && Terminal(record.value, frame)
  {
  }

  // Component severities.

  datatype Component = Component(peak: Band, current: Band)

  function Severities(baseline: Option<SleSample>, observations: seq<SleSample>, metrics: set<Name>): seq<Band> {
    seq(|observations|, i requires 0 <= i < |observations| => MetricSeverity(baseline, Some(observations[i]), metrics))
  }

  /** Peak over every observation; current from the final one. */
  function MetricComponent(baseline: Option<SleSample>, observations: seq<SleSample>, metrics: set<Name>)
    : (c: Option<Component>)
    ensures c.Some? ==> Ordered(c.value.peak, c.value.current)
  {
    if metrics == {} || observations == [] then None
    else
      var bands := Severities(baseline, observations, metrics);
      WorstBounds(bands);
      Some(Component(Worst(bands), bands[|bands| - 1]))
  }

  /** The peak is the worst observation's severity, the current the last one's. */
  lemma MetricComponentMeans(baseline: Option<SleSample>, observations: seq<SleSample>, metrics: set<Name>)
    ensures var c := MetricComponent(baseline, observations, metrics);
            && (c.Some? <==> metrics != {} && observations != [])
            && (c.Some? ==>
                  && (forall o | o in observations :: Rank(MetricSeverity(baseline, Some(o), metrics)) <= Rank(c.value.peak))
                  && (exists o :: o in observations && MetricSeverity(baseline, Some(o), metrics) == c.value.peak)
                  && c.value.current == MetricSeverity(baseline, Some(observations[|observations| - 1]), metrics))
  {
    var bands := Severities(baseline, observations, metrics);
    WorstBounds(bands);
    forall o | o in observations
      ensures MetricSeverity(baseline, Some(o), metrics) in bands
    {
      var i :| 0 <= i < |observations| && observations[i] == o;
      assert bands[i] == MetricSeverity(baseline, Some(o), metrics);
    }
    if observations != [] {
      var i :| 0 <= i < |bands| && bands[i] == Worst(bands);
      assert observations[i] in observations;
    }
  }

  function Relevant(types: set<Name>, frame: Frame): IncidentRecord -> bool {
    (i: IncidentRecord) => i.eventType in types && Deployment.ProviderSecond(frame.changedAt) <= i.occurredAt <= frame.asOf
  }

  function Unresolved(frame: Frame): IncidentRecord -> bool {
    (i: IncidentRecord) => i.resolvedAt.None? || i.resolvedAt.value > frame.asOf
  }

  function IncidentBands(incidents: seq<IncidentRecord>): seq<Band> {
    seq(|incidents|, i requires 0 <= i < |incidents| => incidents[i].severity)
  }

  lemma IncidentBandsWithin(some: seq<IncidentRecord>, all: seq<IncidentRecord>)
    requires forall i | i in some :: i in all
    ensures forall b | b in IncidentBands(some) :: b in IncidentBands(all)
  {
    forall k | 0 <= k < |some|
      ensures some[k].severity in IncidentBands(all)
    {
      assert some[k] in all;
      var l :| 0 <= l < |all| && all[l] == some[k];
      assert IncidentBands(all)[l] == some[k].severity;
    }
  }

  /** Peak over relevant incidents since the change; current over those still unresolved. */
  function IncidentComponent(record: MonitoringRecord, types: set<Name>, frame: Frame): (c: Option<Component>)
    ensures c.Some? ==> Ordered(c.value.peak, c.value.current)
  {
    if types == {} then None
    else
      var relevant := Filter(record.incidents, Relevant(types, frame));
      var active := Filter(relevant, Unresolved(frame));
      FilterMembers(relevant, Unresolved(frame));
      IncidentBandsWithin(active, relevant);
      WorstGrows(IncidentBands(active), IncidentBands(relevant));
      Some(Component(Worst(IncidentBands(relevant)), Worst(IncidentBands(active))))
  }

  /** The worst of these incidents. */
  ghost predicate WorstIncident(worst: Band, incidents: seq<IncidentRecord>) {
    && (forall i | i in incidents :: Rank(i.severity) <= Rank(worst))
    && (worst == NoImpact || exists i :: i in incidents && i.severity == worst)
  }

  lemma WorstOfIncidents(incidents: seq<IncidentRecord>)
    ensures WorstIncident(Worst(IncidentBands(incidents)), incidents)
  {
    var bands := IncidentBands(incidents);
    WorstBounds(bands);
    forall i | i in incidents
      ensures i.severity in bands
    {
      var k :| 0 <= k < |incidents| && incidents[k] == i;
      assert bands[k] == i.severity;
    }
    if incidents != [] {
      var k :| 0 <= k < |bands| && bands[k] == Worst(bands);
      assert incidents[k] in incidents;
    }
  }

  /** The peak is the worst incident of a selected type since the change, the current the worst still unresolved. */
  lemma IncidentComponentMeans(record: MonitoringRecord, types: set<Name>, frame: Frame)
    returns (relevant: seq<IncidentRecord>, active: seq<IncidentRecord>)
    ensures forall i :: i in relevant <==> i in record.incidents && Relevant(types, frame)(i)
    ensures forall i :: i in active <==> i in relevant && Unresolved(frame)(i)
    ensures var c := IncidentComponent(record, types, frame);
            && (c.Some? <==> types != {})
            && (c.Some? ==> WorstIncident(c.value.peak, relevant) && WorstIncident(c.value.current, active))
  {
    relevant := Filter(record.incidents, Relevant(types, frame));
    active := Filter(relevant, Unresolved(frame));
    FilterMembers(record.incidents, Relevant(types, frame));
    FilterMembers(relevant, Unresolved(frame));
    WorstOfIncidents(relevant);
    WorstOfIncidents(active);
  }

  function FindingBands(findings: seq<FindingRecord>, kinds: set<Name>): seq<Band> {
    if findings == [] then []
    else (if findings[0].kind in kinds then [findings[0].severity] else []) + FindingBands(findings[1..], kinds)
  }

  predicate Followed(c: ComparisonRecord, frame: Frame) {
    c.followupAt.Some? && c.followupAt.value <= frame.asOf
  }

  /** A comparison's current findings at the instant: its initial ones stand when later ones overwrote them. */
  function CurrentBands(c: ComparisonRecord, kinds: set<Name>, frame: Frame): seq<Band> {
    if c.latestAt.None? || c.latestAt.value > frame.asOf || c.currentFindings.None?
    then FindingBands(c.findings, kinds) else FindingBands(c.currentFindings.value, kinds)
  }

  /** Some followed comparison has this band among its current findings. */
  ghost predicate ShowsNow(b: Band, comparisons: seq<ComparisonRecord>, kinds: set<Name>, frame: Frame) {
    exists x :: x in comparisons && Followed(x, frame) && b in CurrentBands(x, kinds, frame)
  }

  /** Some followed comparison has it among its initial or its current findings. */
  ghost predicate EverShown(b: Band, comparisons: seq<ComparisonRecord>, kinds: set<Name>, frame: Frame) {
    exists x :: x in comparisons && Followed(x, frame)
                && (b in FindingBands(x.findings, kinds) || b in CurrentBands(x, kinds, frame))
  }

  /** The device's state: the worst band ever shown, and the worst shown now. */
  ghost predicate StateComponentOf(c: Option<Component>, record: MonitoringRecord, kinds: set<Name>, frame: Frame) {
    && (c.None? <==> kinds == {} || forall x | x in record.comparisons :: !Followed(x, frame))
    && (c.Some? ==>
          && WorstShown(c.value.peak, record.comparisons, kinds, frame)
          && WorstNow(c.value.current, record.comparisons, kinds, frame)
          && Ordered(c.value.peak, c.value.current))
  }

  ghost predicate WorstShown(worst: Band, comparisons: seq<ComparisonRecord>, kinds: set<Name>, frame: Frame) {
    && (forall b: Band | EverShown(b, comparisons, kinds, frame) :: Rank(b) <= Rank(worst))
    && (worst == NoImpact || EverShown(worst, comparisons, kinds, frame))
  }

  ghost predicate WorstNow(worst: Band, comparisons: seq<ComparisonRecord>, kinds: set<Name>, frame: Frame) {
    && (forall b: Band | ShowsNow(b, comparisons, kinds, frame) :: Rank(b) <= Rank(worst))
    && (worst == NoImpact || ShowsNow(worst, comparisons, kinds, frame))
  }

  /** The bands collected from the comparisons so far. */
  ghost predicate Collected(peaks: seq<Band>, currents: seq<Band>, comparisons: seq<ComparisonRecord>, kinds: set<Name>,
                            frame: Frame)
  {
    forall b: Band :: (b in peaks <==> EverShown(b, comparisons, kinds, frame))
                      && (b in currents <==> ShowsNow(b, comparisons, kinds, frame))
  }

  lemma CollectedStep(peaks: seq<Band>, currents: seq<Band>, comparisons: seq<ComparisonRecord>, x: ComparisonRecord,
                      kinds: set<Name>, frame: Frame)
    requires Collected(peaks, currents, comparisons, kinds, frame)
    ensures var now := CurrentBands(x, kinds, frame);
            if Followed(x, frame)
            then Collected(peaks + FindingBands(x.findings, kinds) + now, currents + now, comparisons + [x], kinds, frame)
            else Collected(peaks, currents, comparisons + [x], kinds, frame)
  {
    assert forall y :: y in comparisons + [x] <==> y in comparisons || y == x;
    forall b: Band
      ensures EverShown(b, comparisons + [x], kinds, frame)
         <==> EverShown(b, comparisons, kinds, frame)
              || (Followed(x, frame) && (b in FindingBands(x.findings, kinds) || b in CurrentBands(x, kinds, frame)))
      ensures ShowsNow(b, comparisons + [x], kinds, frame)
         <==> ShowsNow(b, comparisons, kinds, frame) || (Followed(x, frame) && b in CurrentBands(x, kinds, frame))
    {
    }
  }

  /** Peak from each comparison's initial and current findings; current from its current findings. */
  method DeviceStateComponent(record: MonitoringRecord, kinds: set<Name>, frame: Frame) returns (c: Option<Component>)
    ensures StateComponentOf(c, record, kinds, frame)
  {
    if kinds == {} {
      return None;
    }
    var peaks: seq<Band> := [];
    var currents: seq<Band> := [];
    var completed := false;
    for i := 0 to |record.comparisons|
      invariant completed <==> exists x :: x in record.comparisons[..i] && Followed(x, frame)
      invariant Collected(peaks, currents, record.comparisons[..i], kinds, frame)
    {
      var comparison := record.comparisons[i];
      Taking(record.comparisons, i);
      CollectedStep(peaks, currents, record.comparisons[..i], comparison, kinds, frame);
      assert forall x :: x in record.comparisons[..i] + [comparison] <==> x in record.comparisons[..i] || x == comparison;
      if Followed(comparison, frame) {
        completed := true;
        var current := CurrentBands(comparison, kinds, frame);
        peaks := peaks + FindingBands(comparison.findings, kinds) + current;
        currents := currents + current;
      }
    }
    Taken(record.comparisons);
    CollectedWorst(peaks, currents, record.comparisons, kinds, frame);
    return if completed then Some(Component(Worst(peaks), Worst(currents))) else None;
  }

  lemma CollectedWorst(peaks: seq<Band>, currents: seq<Band>, comparisons: seq<ComparisonRecord>, kinds: set<Name>,
                       frame: Frame)
    requires Collected(peaks, currents, comparisons, kinds, frame)
    ensures WorstShown(Worst(peaks), comparisons, kinds, frame) && WorstNow(Worst(currents), comparisons, kinds, frame)
    ensures Ordered(Worst(peaks), Worst(currents))
  {
    WorstBounds(peaks);
    WorstBounds(currents);
    assert forall b: Band | ShowsNow(b, comparisons, kinds, frame) :: EverShown(b, comparisons, kinds, frame);
  }

  // One device.

  /** One targeted device's replay. Severity exists only for an exclusive session. */
  datatype DeviceMonitoring = DeviceMonitoring(
    mac: Name,
    site: Option<Name>,
    exclusive: Option<bool>,
    terminal: Option<bool>,
    peak: Option<Band>,
    current: Option<Band>)

  function Bands(components: seq<Option<Component>>, peak: bool): seq<Band> {
    if components == [] then []
    else (if components[0].Some? then [if peak then components[0].value.peak else components[0].value.current] else [])
         + Bands(components[1..], peak)
  }

  lemma {:induction false} ComponentsOrdered(components: seq<Option<Component>>)
    requires forall c | c in components && c.Some? :: Ordered(c.value.peak, c.value.current)
    ensures Ordered(Worst(Bands(components, true)), Worst(Bands(components, false)))
  {
    if components != [] {
      ComponentsOrdered(components[1..]);
      assert components[0] in components;
      if components[0].Some? {
        var c := components[0].value;
        assert [c.peak][0] == c.peak && ([c.peak] + Bands(components[1..], true))[1..] == Bands(components[1..], true);
        assert ([c.current] + Bands(components[1..], false))[1..] == Bands(components[1..], false);
      } else {
        assert Bands(components, true) == Bands(components[1..], true);
        assert Bands(components, false) == Bands(components[1..], false);
      }
    }
  }

  ghost predicate ValidDeviceReplay(d: DeviceMonitoring) {
    && (d.peak.Some? <==> d.exclusive == Some(true))
    && (d.peak.Some? <==> d.current.Some?)
    && (d.peak.Some? ==> Ordered(d.peak.value, d.current.value))
  }

  predicate Demands(selection: Selection, metric: Name, r: Requirement) {
    metric in selection.checks && r in selection.checks[metric]
  }

  /** Every requirement of one obligation id is the same check. */
  ghost predicate OneCheckEach(selection: Selection) {
    forall m, n, r, s | Demands(selection, m, r) && Demands(selection, n, s) && r.id == s.id :: m == n && r == s
  }

  /** Every check the selection asks, resolved. */
  ghost predicate Answers(statuses: map<nat, Status>, selection: Selection, record: Option<MonitoringRecord>, frame: Frame,
                          metrics: set<Name>)
  {
    forall m, r | m in metrics && Demands(selection, m, r) ::
      r.id in statuses && statuses[r.id] == DeviceCheck(record, frame, m, r.policy)
  }

  /** Resolve one metric's requirements. */
  method AnswerMetric(before: map<nat, Status>, selection: Selection, record: Option<MonitoringRecord>, frame: Frame,
                      metric: Name, ghost answered: set<Name>)
    returns (statuses: map<nat, Status>)
    requires OneCheckEach(selection) && metric in selection.checks && metric !in answered
    requires Answers(before, selection, record, frame, answered)
    requires forall id | id in before :: ValidStatus(before[id])
    ensures Answers(statuses, selection, record, frame, answered + {metric})
    ensures forall id | id in statuses :: ValidStatus(statuses[id])
  {
    var requirements := selection.checks[metric];
    statuses := before;
    for i := 0 to |requirements|
      invariant Answers(statuses, selection, record, frame, answered)
      invariant Answered(statuses, record, frame, metric, requirements[..i])
      invariant forall id | id in statuses :: ValidStatus(statuses[id])
    {
      var r := requirements[i];
      Taking(requirements, i);
      DeviceCheckValid(record, frame, metric, r.policy);
      AnswersKept(statuses, selection, record, frame, metric, answered, r, DeviceCheck(record, frame, metric, r.policy));
      AnsweredSnoc(statuses, selection, record, frame, metric, requirements[..i], r);
      statuses := statuses[r.id := DeviceCheck(record, frame, metric, r.policy)];
    }
    Taken(requirements);
  }

  ghost predicate Answered(statuses: map<nat, Status>, record: Option<MonitoringRecord>, frame: Frame, metric: Name,
                           requirements: seq<Requirement>)
  {
    forall r | r in requirements :: r.id in statuses && statuses[r.id] == DeviceCheck(record, frame, metric, r.policy)
  }

  lemma AnswersKept(statuses: map<nat, Status>, selection: Selection, record: Option<MonitoringRecord>, frame: Frame,
                    metric: Name, answered: set<Name>, r: Requirement, s: Status)
    requires OneCheckEach(selection) && Demands(selection, metric, r) && metric !in answered
    requires Answers(statuses, selection, record, frame, answered)
    ensures Answers(statuses[r.id := s], selection, record, frame, answered)
  {
  }

  lemma AnsweredSnoc(statuses: map<nat, Status>, selection: Selection, record: Option<MonitoringRecord>, frame: Frame,
                     metric: Name, requirements: seq<Requirement>, r: Requirement)
    requires OneCheckEach(selection) && Demands(selection, metric, r)
    requires forall q | q in requirements :: Demands(selection, metric, q)
    requires Answered(statuses, record, frame, metric, requirements)
    ensures Answered(statuses[r.id := DeviceCheck(record, frame, metric, r.policy)], record, frame, metric,
                     requirements + [r])
  {
    var next := statuses[r.id := DeviceCheck(record, frame, metric, r.policy)];
    forall q | q in requirements + [r]
      ensures q.id in next && next[q.id] == DeviceCheck(record, frame, metric, q.policy)
    {
      assert q in requirements || q == r;
    }
  }

  method ReplayStatuses(selection: Selection, record: Option<MonitoringRecord>, frame: Frame)
    returns (statuses: map<nat, Status>)
    requires OneCheckEach(selection)
    ensures Answers(statuses, selection, record, frame, selection.checks.Keys)
    ensures forall id | id in statuses :: ValidStatus(statuses[id])
  {
    statuses := map[];
    var left := selection.checks.Keys;
    while left != {}
      invariant left <= selection.checks.Keys
      invariant Answers(statuses, selection, record, frame, selection.checks.Keys - left)
      invariant forall id | id in statuses :: ValidStatus(statuses[id])
      decreases |left|
    {
      var metric :| metric in left;
      statuses := AnswerMetric(statuses, selection, record, frame, metric, selection.checks.Keys - left);
      left := left - {metric};
    }
  }

  /** An exclusive session's bands are the worst of its components'; no other session has bands. */
  ghost predicate SeverityFrom(d: DeviceMonitoring, selection: Selection, record: Option<MonitoringRecord>, frame: Frame) {
    if record.Some? && Exclusive(record.value, frame)
    then exists state :: StateComponentOf(state, record.value, selection.findingKinds, frame)
                         && BandsFrom(d, Components(selection, record, frame, state))
    else d.peak.None? && d.current.None?
  }

  predicate BandsFrom(d: DeviceMonitoring, components: seq<Option<Component>>) {
    d.peak == Some(Worst(Bands(components, true))) && d.current == Some(Worst(Bands(components, false)))
  }

  function Components(selection: Selection, record: Option<MonitoringRecord>, frame: Frame, state: Option<Component>)
    : seq<Option<Component>>
    requires record.Some?
  {
    [MetricComponent(Baseline(record), Observations(record, frame), selection.checks.Keys),
     IncidentComponent(record.value, selection.incidentTypes, frame), state]
  }

  /** The device's replay: its session's, for what is selected. */
  ghost predicate ReplayOf(d: DeviceMonitoring, mac: Name, selection: Selection, record: Option<MonitoringRecord>,
                           frame: Frame)
  {
    && d.mac == mac && ValidDeviceReplay(d)
    && d.site == (if selection.site.Some? || record.None? then selection.site else Some(record.value.site))
    && d.exclusive == (if record.None? then None else Some(Exclusive(record.value, frame)))
    && d.terminal == (if record.None? then None else Some(Terminal(record.value, frame)))
    && SeverityFrom(d, selection, record, frame)
  }

  method ReplayDevice(mac: Name, selection: Selection, record: Option<MonitoringRecord>, frame: Frame)
    returns (device: DeviceMonitoring, statuses: map<nat, Status>)
    requires OneCheckEach(selection)
    ensures ReplayOf(device, mac, selection, record, frame)
    ensures Answers(statuses, selection, record, frame, selection.checks.Keys)
    ensures forall id | id in statuses :: ValidStatus(statuses[id])
  {
    statuses := ReplayStatuses(selection, record, frame);
    var site := if selection.site.Some? then selection.site
                else if record.Some? then Some(record.value.site) else None;
    if record.None? || !Exclusive(record.value, frame) {
      device := DeviceMonitoring(mac, site, if record.None? then None else Some(false),
                                 if record.None? then None else Some(Terminal(record.value, frame)), None, None);
      return;
    }
    var state := DeviceStateComponent(record.value, selection.findingKinds, frame);
    var components := Components(selection, record, frame, state);
    ComponentsOrdered(components);
    device := DeviceMonitoring(mac, site, Some(true), Some(Terminal(record.value, frame)),
                               Some(Worst(Bands(components, true))), Some(Worst(Bands(components, false))));
    assert BandsFrom(device, components);
  }

  // One obligation over the devices it reaches.

  datatype OnDevice = OnDevice(mac: Name, status: Status)

  function Failing(results: seq<OnDevice>): seq<OnDevice> {
    Filter(results, (r: OnDevice) => r.status.value == Unsatisfied)
  }

  /** Unsatisfied if any device is, not exercised only if all are. */
  function Aggregate(results: seq<OnDevice>): Status {
    if results == [] then Status(Unsatisfied, Some(NoDeviceMatches))
    else if |results| == 1 then results[0].status
    else if Failing(results) != [] then
      Status(Unsatisfied, Some(FailingDevices(Failing(results)[0].mac, |Failing(results)| - 1)))
    else if forall r | r in results :: r.status.value == NotExercised then Status(NotExercised, None)
    else Status(Satisfied, None)
  }

  /** Satisfied exactly when it reaches a device, no device is unsatisfied and some device is satisfied. */
  lemma AggregateMeans(results: seq<OnDevice>)
    ensures Aggregate(results).value == Unsatisfied
       <==> results == [] || exists r :: r in results && r.status.value == Unsatisfied
    ensures Aggregate(results).value == NotExercised
       <==> results != [] && forall r | r in results :: r.status.value == NotExercised
    ensures (forall r | r in results :: ValidStatus(r.status)) ==> ValidStatus(Aggregate(results))
  {
    FilterMembers(results, (r: OnDevice) => r.status.value == Unsatisfied);
    if Failing(results) != [] {
      assert Failing(results)[0] in Failing(results);
    }
    if results != [] {
      assert results[0] in results;
    }
  }
}
