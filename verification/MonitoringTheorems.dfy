/** The monitoring replay over a ledger: it looks at exactly the devices that carry deployment preconditions, and a
    satisfied obligation rests on an exclusive, terminal session on every device it reaches. */
module MonitoringTheorems {
  import opened Contracts
  import opened Ordering
  import opened Change
  import opened Obligations
  import opened Conclusions
  import opened Targeting
  import opened RowResolver
  import opened Numbering
  import opened Ledger
  import opened LedgerTheorems
  import opened MonitoringChecks
  import opened MonitoringReplay
  import opened MonitoringStatuses

  datatype Replay = Replay(
    devices: seq<DeviceMonitoring>,
    statuses: map<nat, Status>,
    reach: map<nat, seq<Name>>,
    peak: Band,
    current: Band)

  function RowTargetsOf(rows: seq<LedgerRow>): seq<Target> {
    seq(|rows|, i requires 0 <= i < |rows| => rows[i].target)
  }

  /** The direct definition of an obligation's results: its check on every device it reaches. */
  function ResultsFor(o: Obligation, macs: seq<Name>, sessions: seq<MonitoringRecord>, frame: Frame): seq<OnDevice>
    requires IsCheck(o)
  {
    seq(|macs|, i requires 0 <= i < |macs| =>
      OnDevice(macs[i], DeviceCheck(SessionOf(sessions, frame, macs[i]), frame, o.metric.value, o.policy.value)))
  }

  /** Every monitoring obligation is a valid plug-in observation. */
  ghost predicate MonitoringPlanned(ledger: Ledger) {
    && Shaped(ledger)
    && (forall o | o in ledger.obligations && o.kind == MonitoringKind :: o.owner != CORE)
  }

  lemma SelectionsOneCheck(obligations: seq<Obligation>, targets: map<Name, Target>, plans: seq<PluginPlan>,
                           planIds: map<Name, map<nat, nat>>, mac: Name, selection: Selection)
    requires Consecutive(obligations)
    requires SelectionOf(obligations, targets, plans, planIds, mac) == Some(selection)
    ensures OneCheckEach(selection)
  {
    SelectionHolds(obligations, targets, plans, planIds, mac);
    forall m, n, r, s | Demands(selection, m, r) && Demands(selection, n, s) && r.id == s.id
      ensures m == n && r == s
    {
      assert Requires(Some(selection), m, r) && Requires(Some(selection), n, s);
      assert Asked(obligations, targets, mac, m, r) && Asked(obligations, targets, mac, n, s);
      var o :| o in obligations && Checks(o, targets, mac) && o.metric == Some(m) && r == Requirement(o.id, o.policy.value);
      var p :| p in obligations && Checks(p, targets, mac) && p.metric == Some(n) && s == Requirement(p.id, p.policy.value);
      assert o == p;
    }
  }

  /** What the device loop has resolved: every check asked of the devices done. */
  ghost predicate PerDevice(perDevice: map<(nat, Name), Status>, selections: map<Name, Selection>,
                            sessions: seq<MonitoringRecord>, frame: Frame, done: seq<Name>)
  {
    forall mac, m, r | mac in done && mac in selections && Demands(selections[mac], m, r) ::
      (r.id, mac) in perDevice
      && perDevice[(r.id, mac)] == DeviceCheck(SessionOf(sessions, frame, mac), frame, m, r.policy)
  }

  function Stored(perDevice: map<(nat, Name), Status>, statuses: map<nat, Status>, mac: Name): map<(nat, Name), Status> {
    perDevice + map key | key in (set id | id in statuses :: (id, mac)) :: statuses[key.0]
  }

  lemma PerDeviceStep(perDevice: map<(nat, Name), Status>, statuses: map<nat, Status>, selections: map<Name, Selection>,
                      sessions: seq<MonitoringRecord>, frame: Frame, done: seq<Name>, mac: Name)
    requires PerDevice(perDevice, selections, sessions, frame, done) && mac !in done && mac in selections
    requires Answers(statuses, selections[mac], SessionOf(sessions, frame, mac), frame, selections[mac].checks.Keys)
    ensures PerDevice(Stored(perDevice, statuses, mac), selections, sessions, frame, done + [mac])
  {
    var next := Stored(perDevice, statuses, mac);
    forall other, m, r | other in done + [mac] && other in selections && Demands(selections[other], m, r)
      ensures (r.id, other) in next
      ensures next[(r.id, other)] == DeviceCheck(SessionOf(sessions, frame, other), frame, m, r.policy)
    {
      if other == mac {
        assert (r.id, mac).0 == r.id;
      } else {
        assert other in done;
      }
    }
  }

  /** The worst bands of the devices that carry any. */
  ghost predicate SeverityOf(devices: seq<DeviceMonitoring>, peak: Band, current: Band) {
    && Ordered(peak, current)
    && (forall d | d in devices && d.peak.Some? :: Rank(d.peak.value) <= Rank(peak))
    && (forall d | d in devices && d.current.Some? :: Rank(d.current.value) <= Rank(current))
    && (peak == NoImpact || exists d :: d in devices && d.peak == Some(peak))
    && (current == NoImpact || exists d :: d in devices && d.current == Some(current))
  }

  lemma SeverityStep(devices: seq<DeviceMonitoring>, peak: Band, current: Band, d: DeviceMonitoring)
    requires SeverityOf(devices, peak, current) && ValidDeviceReplay(d)
    ensures SeverityOf(devices + [d], if d.peak.Some? then Worse(peak, d.peak.value) else peak,
                       if d.current.Some? then Worse(current, d.current.value) else current)
  {
    assert forall x :: x in devices + [d] <==> x in devices || x == d;
  }

  /** Each device's replay is its own latest session's, for its own selection. */
  ghost predicate ReplaysOf(devices: seq<DeviceMonitoring>, macs: seq<Name>, selections: map<Name, Selection>,
                            sessions: seq<MonitoringRecord>, frame: Frame)
    requires forall mac | mac in macs :: mac in selections
  {
    |devices| == |macs|
    && forall i | 0 <= i < |macs| ::
         ReplayOf(devices[i], macs[i], selections[macs[i]], SessionOf(sessions, frame, macs[i]), frame)
  }

  /** Replay every selected device, in MAC order. */
  method ReplayDevices(macs: seq<Name>, selections: map<Name, Selection>, sessions: seq<MonitoringRecord>, frame: Frame)
    returns (devices: seq<DeviceMonitoring>, perDevice: map<(nat, Name), Status>, peak: Band, current: Band)
    requires Ascending(macs) && forall mac | mac in macs :: mac in selections && OneCheckEach(selections[mac])
    ensures ReplaysOf(devices, macs, selections, sessions, frame)
    ensures PerDevice(perDevice, selections, sessions, frame, macs)
    ensures SeverityOf(devices, peak, current)
  {
    devices, perDevice, peak, current := [], map[], NoImpact, NoImpact;
    for i := 0 to |macs|
      invariant ReplaysOf(devices, macs[..i], selections, sessions, frame)
      invariant PerDevice(perDevice, selections, sessions, frame, macs[..i])
      invariant SeverityOf(devices, peak, current)
    {
      var mac := macs[i];
      assert mac !in macs[..i];
      var device, statuses := ReplayDevice(mac, selections[mac], SessionOf(sessions, frame, mac), frame);
      PerDeviceStep(perDevice, statuses, selections, sessions, frame, macs[..i], mac);
      SeverityStep(devices, peak, current, device);
      Taking(macs, i);
      perDevice := Stored(perDevice, statuses, mac);
      peak := if device.peak.Some? then Worse(peak, device.peak.value) else peak;
      current := if device.current.Some? then Worse(current, device.current.value) else current;
      devices := devices + [device];
    }
    Taken(macs);
  }

  /** A monitoring obligation's check was resolved on every device it reaches: no lookup can miss. */
  lemma EveryLookupDefined(perDevice: map<(nat, Name), Status>, selections: map<Name, Selection>,
                           sessions: seq<MonitoringRecord>, frame: Frame, macs: seq<Name>, obligations: seq<Obligation>,
                           devices: RowDevices, plans: seq<PluginPlan>, planIds: map<Name, map<nat, nat>>, o: Obligation,
                           mac: Name)
    requires devices.Valid() && SelectionsOf(selections, obligations, devices.targets, plans, planIds)
    requires PerDevice(perDevice, selections, sessions, frame, macs) && forall m | m in selections :: m in macs
    requires o in obligations && o.owner != CORE && IsCheck(o) && o.kind == MonitoringKind
    requires mac in devices.Reached(o.target)
    ensures (o.id, mac) in perDevice
    ensures perDevice[(o.id, mac)]
         == DeviceCheck(SessionOf(sessions, frame, mac), frame, o.metric.value, o.policy.value)
  {
    FilterMembers(devices.macs, ReachedBy(devices.targets, o.target));
    SelectionHolds(obligations, devices.targets, plans, planIds, mac);
    var r := Requirement(o.id, o.policy.value);
    assert ReachesDevice(o, devices.targets, mac) && Checks(o, devices.targets, mac);
    assert Asked(obligations, devices.targets, mac, o.metric.value, r);
    assert Lookup(selections, mac) == SelectionOf(obligations, devices.targets, plans, planIds, mac);
    assert Requires(Lookup(selections, mac), o.metric.value, r);
    assert Demands(selections[mac], o.metric.value, r);
  }

  /** One obligation's stored results, read back for the devices it reaches. */
  method ReadResults(o: Obligation, macs: seq<Name>, perDevice: map<(nat, Name), Status>,
                     ghost sessions: seq<MonitoringRecord>, ghost frame: Frame)
    returns (results: seq<OnDevice>)
    requires ResolvedFor(o, macs, perDevice, sessions, frame)
    ensures results == ResultsFor(o, macs, sessions, frame)
  {
    results := [];
    for i := 0 to |macs|
      invariant |results| == i && forall k | 0 <= k < i :: results[k] == ResultsFor(o, macs, sessions, frame)[k]
    {
      assert macs[i] in macs;
      results := results + [OnDevice(macs[i], perDevice[(o.id, macs[i])])];
    }
  }

  ghost predicate StatusFor(statuses: map<nat, Status>, o: Obligation, devices: RowDevices,
                            sessions: seq<MonitoringRecord>, frame: Frame)
    requires devices.Valid()
  {
    IsCheck(o) && o.id in statuses
    && statuses[o.id] == Aggregate(ResultsFor(o, devices.Reached(o.target), sessions, frame))
  }

  ghost predicate MonitoringId(obligations: seq<Obligation>, id: nat) {
    exists o :: o in obligations && o.kind == MonitoringKind && o.id == id
  }

  /** Every monitoring obligation has its aggregated status over the devices it reaches, and nothing else has one. */
  ghost predicate StatusesOf(statuses: map<nat, Status>, obligations: seq<Obligation>, devices: RowDevices,
                             sessions: seq<MonitoringRecord>, frame: Frame)
    requires devices.Valid()
  {
    && (forall o {:trigger StatusFor(statuses, o, devices, sessions, frame)} |
          o in obligations && o.kind == MonitoringKind :: StatusFor(statuses, o, devices, sessions, frame))
    && (forall id {:trigger MonitoringId(obligations, id)} | id in statuses :: MonitoringId(obligations, id))
  }

  lemma StatusesStep(statuses: map<nat, Status>, obligations: seq<Obligation>, o: Obligation, devices: RowDevices,
                     sessions: seq<MonitoringRecord>, frame: Frame, next: map<nat, Status>)
    requires devices.Valid() && StatusesOf(statuses, obligations, devices, sessions, frame)
    requires forall p | p in obligations :: p.id != o.id
    requires if o.kind != MonitoringKind then next == statuses
             else IsCheck(o)
                  && next == statuses[o.id := Aggregate(ResultsFor(o, devices.Reached(o.target), sessions, frame))]
    ensures StatusesOf(next, obligations + [o], devices, sessions, frame)
  {
    var all := obligations + [o];
    assert forall p :: p in all <==> p in obligations || p == o;
    forall p | p in all && p.kind == MonitoringKind
      ensures StatusFor(next, p, devices, sessions, frame)
    {
      if p in obligations {
        assert StatusFor(statuses, p, devices, sessions, frame);
      }
    }
    forall id | id in next
      ensures MonitoringId(all, id)
    {
      if id in statuses {
        assert MonitoringId(obligations, id);
      }
    }
  }

  ghost predicate Replayed(devices: seq<DeviceMonitoring>, mac: Name) {
    exists d :: d in devices && d.mac == mac
  }

  ghost predicate ReachedBySome(obligations: seq<Obligation>, targets: map<Name, Target>, mac: Name) {
    exists o :: o in obligations && ReachesDevice(o, targets, mac)
  }

  /** The row devices of each monitoring obligation, and of nothing else. */
  ghost predicate MonitoringReach(reach: map<nat, seq<Name>>, obligations: seq<Obligation>, devices: RowDevices)
    requires devices.Valid()
  {
    && (forall o | o in obligations && o.kind == MonitoringKind :: o.id in reach && reach[o.id] == devices.Reached(o.target))
    && (forall id {:trigger MonitoringId(obligations, id)} | id in reach :: MonitoringId(obligations, id))
  }

  /** A device's record is its own session's, for what the obligations reaching it select. */
  ghost predicate ReplayedFrom(d: DeviceMonitoring, ledger: Ledger, targets: map<Name, Target>, plans: seq<PluginPlan>,
                               sessions: seq<MonitoringRecord>, frame: Frame)
  {
    var selection := SelectionOf(ledger.obligations, targets, plans, ledger.planIds, d.mac);
    selection.Some? && ReplayOf(d, d.mac, selection.value, SessionOf(sessions, frame, d.mac), frame)
  }

  method RestrictReach(reach: map<nat, seq<Name>>, obligations: seq<Obligation>, ghost devices: RowDevices)
    returns (kept: map<nat, seq<Name>>)
    requires devices.Valid() && Consecutive(obligations)
    requires forall o | o in obligations && o.kind == MonitoringKind ::
               o.id in reach && reach[o.id] == devices.Reached(o.target)
    ensures MonitoringReach(kept, obligations, devices)
  {
    var ids := set o | o in obligations && o.kind == MonitoringKind :: o.id;
    kept := map id | id in ids :: reach[id];
    forall id | id in kept
      ensures MonitoringId(obligations, id)
    {
      var o :| o in obligations && o.kind == MonitoringKind && o.id == id;
    }
  }

  /** Replay every row device a plug-in obligation reaches and resolve each monitoring obligation over them. */
  method ReplayMonitoring(sessions: seq<MonitoringRecord>, frame: Frame, ledger: Ledger, plans: seq<PluginPlan>)
    returns (replay: Replay, ghost devices: RowDevices)
    requires MonitoringPlanned(ledger)
    ensures devices.Valid() && devices.rows == RowTargetsOf(ledger.rows)
    ensures StatusesOf(replay.statuses, ledger.obligations, devices, sessions, frame)
    ensures MonitoringReach(replay.reach, ledger.obligations, devices)
    ensures SeverityOf(replay.devices, replay.peak, replay.current)
    ensures forall d | d in replay.devices :: ReplayedFrom(d, ledger, devices.targets, plans, sessions, frame)
    ensures forall mac :: Replayed(replay.devices, mac) <==> ReachedBySome(ledger.obligations, devices.targets, mac)
  {
    var rowDevices := new RowDevices(RowTargetsOf(ledger.rows));
    devices := rowDevices;
    var selections, reach := Selections(ledger.obligations, rowDevices, plans, ledger.planIds);
    var macs := SelectedMacs(selections, rowDevices.macs, ledger.obligations, rowDevices, plans, ledger.planIds);
    forall mac | mac in macs
      ensures OneCheckEach(selections[mac])
    {
      assert Lookup(selections, mac) == SelectionOf(ledger.obligations, devices.targets, plans, ledger.planIds, mac);
      SelectionsOneCheck(ledger.obligations, devices.targets, plans, ledger.planIds, mac, selections[mac]);
    }
    var replayed, perDevice, peak, current := ReplayDevices(macs, selections, sessions, frame);
    forall o | o in ledger.obligations && o.kind == MonitoringKind {
      AllResolved(ledger, devices, reach, perDevice, selections, macs, sessions, frame, plans, o);
    }
    var statuses := AggregateAll(ledger.obligations, rowDevices, reach, perDevice, sessions, frame);
    var monitored := RestrictReach(reach, ledger.obligations, rowDevices);
    replay := Replay(replayed, statuses, monitored, peak, current);
    forall d | d in replayed
      ensures ReplayedFrom(d, ledger, devices.targets, plans, sessions, frame)
    {
      OwnReplay(replayed, macs, selections, ledger, devices.targets, plans, sessions, frame, d);
    }
    forall mac
      ensures Replayed(replayed, mac) <==> ReachedBySome(ledger.obligations, devices.targets, mac)
    {
      SelectedDevice(selections, replayed, macs, ledger.obligations, devices.targets, plans, ledger.planIds, mac);
    }
  }

  lemma OwnReplay(replayed: seq<DeviceMonitoring>, macs: seq<Name>, selections: map<Name, Selection>, ledger: Ledger,
                  targets: map<Name, Target>, plans: seq<PluginPlan>, sessions: seq<MonitoringRecord>, frame: Frame,
                  d: DeviceMonitoring)
    requires SelectionsOf(selections, ledger.obligations, targets, plans, ledger.planIds)
    requires (forall mac | mac in macs :: mac in selections) && ReplaysOf(replayed, macs, selections, sessions, frame)
    requires d in replayed
    ensures ReplayedFrom(d, ledger, targets, plans, sessions, frame)
  {
    var i :| 0 <= i < |replayed| && replayed[i] == d;
    assert Lookup(selections, macs[i]) == SelectionOf(ledger.obligations, targets, plans, ledger.planIds, macs[i]);
  }

  lemma SelectedDevice(selections: map<Name, Selection>, replayed: seq<DeviceMonitoring>, macs: seq<Name>,
                       obligations: seq<Obligation>, targets: map<Name, Target>, plans: seq<PluginPlan>,
                       planIds: map<Name, map<nat, nat>>, mac: Name)
    requires SelectionsOf(selections, obligations, targets, plans, planIds)
    requires forall m :: m in macs <==> m in selections
    requires |replayed| == |macs| && forall i | 0 <= i < |macs| :: replayed[i].mac == macs[i]
    ensures Replayed(replayed, mac) <==> ReachedBySome(obligations, targets, mac)
  {
    SelectionHolds(obligations, targets, plans, planIds, mac);
    assert Lookup(selections, mac) == SelectionOf(obligations, targets, plans, planIds, mac);
    if mac in macs {
      var i :| 0 <= i < |macs| && macs[i] == mac;
      assert replayed[i] in replayed;
    }
    if d :| d in replayed && d.mac == mac {
      var i :| 0 <= i < |replayed| && replayed[i] == d;
      assert macs[i] in macs;
    }
  }

  /** `sorted(selections)`: every selected device is a row device, so the row devices in order are the sorted keys. */
  method SelectedMacs(selections: map<Name, Selection>, rowMacs: seq<Name>, ghost obligations: seq<Obligation>,
                      ghost devices: RowDevices, ghost plans: seq<PluginPlan>, ghost planIds: map<Name, map<nat, nat>>)
    returns (macs: seq<Name>)
    requires devices.Valid() && rowMacs == devices.macs
    requires SelectionsOf(selections, obligations, devices.targets, plans, planIds)
    ensures Ascending(macs) && forall mac :: mac in macs <==> mac in selections
  {
    macs := Filter(rowMacs, (mac: Name) => mac in selections);
    FilterMembers(rowMacs, (mac: Name) => mac in selections);
    FilterAscends(rowMacs, (mac: Name) => mac in selections);
    forall mac | mac in selections
      ensures mac in rowMacs
    {
      SelectionHolds(obligations, devices.targets, plans, planIds, mac);
      assert Lookup(selections, mac) == SelectionOf(obligations, devices.targets, plans, planIds, mac);
    }
  }

  /** Every reached device's check was resolved. */
  ghost predicate ResolvedFor(o: Obligation, macs: seq<Name>, perDevice: map<(nat, Name), Status>,
                              sessions: seq<MonitoringRecord>, frame: Frame)
  {
    IsCheck(o) && forall mac | mac in macs ::
      (o.id, mac) in perDevice
      && perDevice[(o.id, mac)] == DeviceCheck(SessionOf(sessions, frame, mac), frame, o.metric.value, o.policy.value)
  }

  lemma AllResolved(ledger: Ledger, devices: RowDevices, reach: map<nat, seq<Name>>,
                    perDevice: map<(nat, Name), Status>, selections: map<Name, Selection>, macs: seq<Name>,
                    sessions: seq<MonitoringRecord>, frame: Frame, plans: seq<PluginPlan>, o: Obligation)
    requires MonitoringPlanned(ledger) && devices.Valid() && ReachOf(reach, ledger.obligations, devices)
    requires SelectionsOf(selections, ledger.obligations, devices.targets, plans, ledger.planIds)
    requires PerDevice(perDevice, selections, sessions, frame, macs) && forall m | m in selections :: m in macs
    requires o in ledger.obligations && o.kind == MonitoringKind
    ensures o.id in reach && reach[o.id] == devices.Reached(o.target)
    ensures ResolvedFor(o, reach[o.id], perDevice, sessions, frame)
  {
    assert ValidObligation(o);
    forall mac | mac in reach[o.id] {
      EveryLookupDefined(perDevice, selections, sessions, frame, macs, ledger.obligations, devices, plans, ledger.planIds,
                         o, mac);
    }
  }

  method AggregateAll(obligations: seq<Obligation>, ghost devices: RowDevices, reach: map<nat, seq<Name>>,
                      perDevice: map<(nat, Name), Status>, ghost sessions: seq<MonitoringRecord>, ghost frame: Frame)
    returns (statuses: map<nat, Status>)
    requires devices.Valid() && Consecutive(obligations)
    requires forall o | o in obligations && o.kind == MonitoringKind ::
               o.id in reach && reach[o.id] == devices.Reached(o.target)
               && ResolvedFor(o, reach[o.id], perDevice, sessions, frame)
    ensures StatusesOf(statuses, obligations, devices, sessions, frame)
  {
    statuses := map[];
    for i := 0 to |obligations|
      invariant StatusesOf(statuses, obligations[..i], devices, sessions, frame)
    {
      var o := obligations[i];
      Taking(obligations, i);
      assert o in obligations;
      ghost var before := statuses;
      if o.kind == MonitoringKind {
        var results := ReadResults(o, reach[o.id], perDevice, sessions, frame);
        statuses := statuses[o.id := Aggregate(results)];
      }
      StatusesStep(before, obligations[..i], o, devices, sessions, frame, statuses);
    }
    Taken(obligations);
  }

  // What a status means.

  /** The device's session can resolve checks, and this one came out with this value. */
  ghost predicate CheckedOn(o: Obligation, mac: Name, sessions: seq<MonitoringRecord>, frame: Frame, value: StatusValue)
    requires IsCheck(o)
  {
    && SessionOf(sessions, frame, mac).Some?
    && Exclusive(SessionOf(sessions, frame, mac).value, frame) && Terminal(SessionOf(sessions, frame, mac).value, frame)
    && DeviceCheck(SessionOf(sessions, frame, mac), frame, o.metric.value, o.policy.value).value == value
  }

  /** A satisfied obligation reaches a device, every device it reaches had an exclusive, terminal session that left the
      check satisfied or not exercised, and at least one satisfied it; and exactly then. */
  lemma SatisfiedObligation(o: Obligation, macs: seq<Name>, sessions: seq<MonitoringRecord>, frame: Frame)
    requires IsCheck(o)
    ensures Aggregate(ResultsFor(o, macs, sessions, frame)).value == Satisfied
       <==> && (forall mac | mac in macs :: CheckedOn(o, mac, sessions, frame, Satisfied)
                                            || CheckedOn(o, mac, sessions, frame, NotExercised))
            && (exists mac :: mac in macs && CheckedOn(o, mac, sessions, frame, Satisfied))
  {
    var results := ResultsFor(o, macs, sessions, frame);
    AggregateMeans(results);
    forall mac | mac in macs
      ensures exists r :: r in results && r.mac == mac
                          && r.status == DeviceCheck(SessionOf(sessions, frame, mac), frame, o.metric.value, o.policy.value)
    {
      var i :| 0 <= i < |macs| && macs[i] == mac;
      assert results[i] in results;
    }
    forall r | r in results
      ensures r.mac in macs
      ensures r.status == DeviceCheck(SessionOf(sessions, frame, r.mac), frame, o.metric.value, o.policy.value)
    {
      var i :| 0 <= i < |results| && results[i] == r;
      assert macs[i] in macs;
    }
    forall mac | mac in macs {
      DeviceCheckValid(SessionOf(sessions, frame, mac), frame, o.metric.value, o.policy.value);
    }
    assert macs == [] <==> results == [];
  }

  /** Both windows of the device's exclusive, ended session measured the metric, on one scope. */
  ghost predicate MeasuredOn(o: Obligation, mac: Name, sessions: seq<MonitoringRecord>, frame: Frame)
    requires IsCheck(o)
  {
    var session := SessionOf(sessions, frame, mac);
    && EndedAlone(session, frame)
    && StateOf(Baseline(session), o.metric.value) == Measured
    && StateOf(Latest(session, frame), o.metric.value) == Measured
    && SameScope(Baseline(session), Latest(session, frame))
  }

  /** Neither window had data, and the obligation accepts that. */
  ghost predicate EmptyOn(o: Obligation, mac: Name, sessions: seq<MonitoringRecord>, frame: Frame)
    requires IsCheck(o)
  {
    var session := SessionOf(sessions, frame, mac);
    && EndedAlone(session, frame) && o.policy == Some(NotExercisedPolicy)
    && StateOf(Baseline(session), o.metric.value) == NoData
    && StateOf(Latest(session, frame), o.metric.value) == NoData
  }

  predicate EndedAlone(session: Option<MonitoringRecord>, frame: Frame) {
    session.Some? && Exclusive(session.value, frame) && Terminal(session.value, frame)
  }

  lemma CheckedMeans(o: Obligation, mac: Name, sessions: seq<MonitoringRecord>, frame: Frame)
    requires IsCheck(o)
    ensures CheckedOn(o, mac, sessions, frame, Satisfied) <==> MeasuredOn(o, mac, sessions, frame)
    ensures CheckedOn(o, mac, sessions, frame, NotExercised) <==> EmptyOn(o, mac, sessions, frame)
  {
    var session := SessionOf(sessions, frame, mac);
    var latest := Latest(session, frame);
    SatisfiedMeansMeasured(Baseline(session), latest, o.metric.value, o.policy.value);
    PolicyOnlyDecidesEmptyWindows(CheckMetric(Baseline(session), latest, o.metric.value));
  }

  /** From an obligation's one status to what was recorded: satisfied exactly when every device it reaches either measured
      the metric in both windows or, if the obligation accepts it, had no data in either, and one did measure it. */
  lemma SatisfiedRestsOnMeasurements(o: Obligation, macs: seq<Name>, sessions: seq<MonitoringRecord>, frame: Frame)
    requires IsCheck(o)
    ensures Aggregate(ResultsFor(o, macs, sessions, frame)).value == Satisfied
       <==> && (forall mac | mac in macs :: MeasuredOn(o, mac, sessions, frame) || EmptyOn(o, mac, sessions, frame))
            && (exists mac :: mac in macs && MeasuredOn(o, mac, sessions, frame))
  {
    SatisfiedObligation(o, macs, sessions, frame);
    forall mac: Name {
      CheckedMeans(o, mac, sessions, frame);
    }
  }

  /** Left unsatisfied by no device: it reaches one, and every device it reaches measured the metric in both windows or,
      if the obligation accepts it, had no data in either. */
  lemma AcceptedRestsOnMeasurements(o: Obligation, macs: seq<Name>, sessions: seq<MonitoringRecord>, frame: Frame)
    requires IsCheck(o)
    ensures Aggregate(ResultsFor(o, macs, sessions, frame)).value != Unsatisfied
       <==> macs != [] && forall mac | mac in macs :: MeasuredOn(o, mac, sessions, frame) || EmptyOn(o, mac, sessions, frame)
  {
    var results := ResultsFor(o, macs, sessions, frame);
    AggregateMeans(results);
    forall i | 0 <= i < |macs|
      ensures results[i] in results && (results[i].status.value != Unsatisfied
                                        <==> MeasuredOn(o, macs[i], sessions, frame) || EmptyOn(o, macs[i], sessions, frame))
    {
      AcceptedMeans(o, macs[i], sessions, frame);
    }
  }

  lemma AcceptedMeans(o: Obligation, mac: Name, sessions: seq<MonitoringRecord>, frame: Frame)
    requires IsCheck(o)
    ensures DeviceCheck(SessionOf(sessions, frame, mac), frame, o.metric.value, o.policy.value).value != Unsatisfied
       <==> MeasuredOn(o, mac, sessions, frame) || EmptyOn(o, mac, sessions, frame)
  {
    CheckedMeans(o, mac, sessions, frame);
    DeviceCheckValid(SessionOf(sessions, frame, mac), frame, o.metric.value, o.policy.value);
  }

  /** A replayed device without impact was clean: every selected metric observed in the baseline and in every observation,
      and none of them down by a warning. */
  lemma NoImpactDeviceIsClean(d: DeviceMonitoring, selection: Selection, record: Option<MonitoringRecord>, frame: Frame,
                              o: SleSample, metric: Name)
    requires ReplayOf(d, d.mac, selection, record, frame) && d.peak == Some(NoImpact)
    requires o in Observations(record, frame) && metric in selection.checks
    ensures IsObserved(StateOf(Baseline(record), metric)) && IsObserved(StateOf(Some(o), metric))
    ensures var check := CheckMetric(Baseline(record), Some(o), metric);
            check.delta.Some? ==> check.delta.value > -WARNING_DELTA
  {
    var metrics := selection.checks.Keys;
    var state :| StateComponentOf(state, record.value, selection.findingKinds, frame)
                 && BandsFrom(d, Components(selection, record, frame, state));
    var components := Components(selection, record, frame, state);
    MetricComponentMeans(Baseline(record), Observations(record, frame), metrics);
    var c := MetricComponent(Baseline(record), Observations(record, frame), metrics).value;
    assert components[0] == Some(c);
    assert Bands(components, true) == [c.peak] + Bands(components[1..], true);
    assert Rank(c.peak) <= Rank(NoImpact);
    NoImpactIsClean(Baseline(record), Some(o), metrics, metric);
  }

  // The devices monitoring replays are those with a deployment precondition.

  lemma {:induction false} TargetedDevicesMembers(macs: seq<Name>, targets: map<Name, Target>, claims: seq<Claim>)
    ensures forall t :: t in TargetedDevices(macs, targets, claims)
              <==> exists mac :: mac in macs && mac in targets && targets[mac] == t && Targeted(claims, t)
  {
    if macs != [] {
      TargetedDevicesMembers(macs[..|macs| - 1], targets, claims);
      assert forall mac :: mac in macs <==> mac in macs[..|macs| - 1] || mac == macs[|macs| - 1];
    }
  }

  lemma ClaimStands(s: State, base: seq<Obligation>, plans: seq<PluginPlan>, atoms: set<nat>, c: Claim)
    returns (o: Obligation)
    requires Numbered(s, base, Flatten(plans)) && forall p | p in plans :: PlanFits(p, atoms)
    requires c in s.claims
    ensures o in s.obligations && o.owner != CORE && o.target == c.obligation.target
  {
    var j :| 0 <= j < |s.claims| && s.claims[j] == c;
    o := s.obligations[c.id - 1];
    assert StandsFor(o, c.obligation);
    PlannedByPlugin(s, base, plans, c.id - 1, atoms);
  }

  lemma OwnedClaim(s: State, base: seq<Obligation>, o: Obligation) returns (c: Claim)
    requires base <= s.obligations && FromPlans(s.obligations, s.claims, |base|)
    requires o in s.obligations && o.owner != CORE && forall b | b in base :: b.owner == CORE
    ensures c in s.claims && c.obligation.target == o.target
  {
    var i :| 0 <= i < |s.obligations| && s.obligations[i] == o;
    assert forall k | 0 <= k < |base| :: s.obligations[k] == base[k] && base[k] in base;
    assert i >= |base| && FromPlan(s.obligations[i], s.claims);
    var j :| 0 <= j < |s.claims| && StoredAs(o, s.claims, j);
    c := s.claims[j];
  }

  /** An obligation reaches a row device exactly when the plan it stands for does. */
  lemma PlannedReach(s: State, base: seq<Obligation>, plans: seq<PluginPlan>, atoms: set<nat>, row: Target)
    requires Numbered(s, base, Flatten(plans)) && forall p | p in plans :: PlanFits(p, atoms)
    requires forall o | o in base :: o.owner == CORE
    ensures Targeted(s.claims, row) <==> exists o :: o in s.obligations && o.owner != CORE && Reaches(o.target, row)
  {
    if c :| c in s.claims && Reaches(c.obligation.target, row) {
      var o := ClaimStands(s, base, plans, atoms, c);
    }
    if o :| o in s.obligations && o.owner != CORE && Reaches(o.target, row) {
      var c := OwnedClaim(s, base, o);
    }
  }

  lemma DeploymentNames(before: nat, targets: seq<Target>, t: Target)
    ensures t in targets <==> exists o :: o in DeploymentPart(before, targets) && o.target == t
  {
    if t in targets {
      var i :| 0 <= i < |targets| && targets[i] == t;
      assert DeploymentPart(before, targets)[i] in DeploymentPart(before, targets);
    }
    DeploymentPartMembers(before, targets);
  }

  /** The ledger's rows have the targets they were resolved for. */
  lemma RowTargetsResolved(ledger: Ledger, trace: Trace, exclusions: seq<Exclusion>)
    requires RowsResolved(ledger.rows, trace.placed, trace.numbered.claims, exclusions)
    ensures RowTargetsOf(ledger.rows) == TargetsOf(trace.placed)
  {
    forall k | 0 <= k < |ledger.rows|
      ensures ledger.rows[k].target == trace.placed[k].target
    {
      assert Resolved(ledger.rows[k], trace.placed[k].atom, trace.placed[k].target, trace.numbered.claims, exclusions);
    }
  }

  ghost predicate DeployedDevice(ledger: Ledger, mac: Name) {
    exists o :: o in ledger.obligations && o.kind == DeploymentKind && o.target.device == Some(mac)
  }

  /** The row devices a plug-in obligation reaches, which monitoring replays, are exactly those that carry a deployment
      precondition. */
  lemma MonitoredDevicesAreDeployed(ledger: Ledger, trace: Trace, change: ChangeSet, expected: seq<ExpectedDevice>,
                                    plans: seq<PluginPlan>, anchor: AnchorSource, inputs: seq<Reason>, mac: Name)
    requires ValidChangeSet(change) && ValidPlans(plans)
    requires forall p | p in plans :: PlanFits(p, AtomIds(change))
    requires LedgerOf(ledger, trace, change, expected, plans, anchor, inputs)
    ensures ReachedBySome(ledger.obligations, LastTargets(RowTargetsOf(ledger.rows)), mac) <==> DeployedDevice(ledger, mac)
  {
    var targets := LastTargets(TargetsOf(trace.placed));
    RowTargetsResolved(ledger, trace, AllExclusions(plans));
    LastTargetsName(TargetsOf(trace.placed));
    DeployedMeans(ledger, trace, change, expected, plans, anchor, inputs, mac);
    if mac in targets {
      PlannedReach(trace.numbered, AnchorPart(anchor), plans, AtomIds(change), targets[mac]);
      OwnedObligations(ledger, trace, change, expected, plans, anchor, inputs);
    }
  }

  lemma OwnedObligations(ledger: Ledger, trace: Trace, change: ChangeSet, expected: seq<ExpectedDevice>,
                         plans: seq<PluginPlan>, anchor: AnchorSource, inputs: seq<Reason>)
    requires ValidChangeSet(change) && ValidPlans(plans)
    requires forall p | p in plans :: PlanFits(p, AtomIds(change))
    requires LedgerOf(ledger, trace, change, expected, plans, anchor, inputs)
    ensures forall o: Obligation | o.owner != CORE :: o in ledger.obligations <==> o in trace.numbered.obligations
  {
    LedgerShaped(ledger, trace, change, expected, plans, anchor, inputs);
    Parts(ledger, trace, AllExclusions(plans));
  }

  lemma DeployedMeans(ledger: Ledger, trace: Trace, change: ChangeSet, expected: seq<ExpectedDevice>,
                      plans: seq<PluginPlan>, anchor: AnchorSource, inputs: seq<Reason>, mac: Name)
    requires ValidChangeSet(change) && ValidPlans(plans)
    requires forall p | p in plans :: PlanFits(p, AtomIds(change))
    requires LedgerOf(ledger, trace, change, expected, plans, anchor, inputs)
    ensures var targets := LastTargets(TargetsOf(trace.placed));
            DeployedDevice(ledger, mac) <==> mac in targets && Targeted(trace.numbered.claims, targets[mac])
  {
    var targets := LastTargets(TargetsOf(trace.placed));
    NumberedKinds(ledger, trace, change, expected, plans, anchor, inputs);
    var deployed, uncovered, gaps := LedgerParts(ledger, trace, AllExclusions(plans));
    LastTargetsName(TargetsOf(trace.placed));
    TargetedDevicesMembers(trace.macs, targets, trace.numbered.claims);
    if mac in targets {
      DeploymentNames(|trace.numbered.obligations|, Reached(trace), targets[mac]);
    }
    if DeployedDevice(ledger, mac) {
      var o :| o in ledger.obligations && o.kind == DeploymentKind && o.target.device == Some(mac);
      assert o in deployed;
      DeploymentNames(|trace.numbered.obligations|, Reached(trace), o.target);
    }
  }

  /** Every deployment precondition names a row device. */
  lemma DeploymentsNameRowDevices(ledger: Ledger, trace: Trace, change: ChangeSet, expected: seq<ExpectedDevice>,
                                  plans: seq<PluginPlan>, anchor: AnchorSource, inputs: seq<Reason>, o: Obligation)
    requires ValidChangeSet(change) && ValidPlans(plans)
    requires forall p | p in plans :: PlanFits(p, AtomIds(change))
    requires LedgerOf(ledger, trace, change, expected, plans, anchor, inputs)
    requires o in ledger.obligations && o.kind == DeploymentKind
    ensures o.target.device.Some? && o.target.device.value in LastTargets(RowTargetsOf(ledger.rows))
  {
    var targets := LastTargets(TargetsOf(trace.placed));
    NumberedKinds(ledger, trace, change, expected, plans, anchor, inputs);
    var deployed, uncovered, gaps := LedgerParts(ledger, trace, AllExclusions(plans));
    RowTargetsResolved(ledger, trace, AllExclusions(plans));
    LastTargetsName(TargetsOf(trace.placed));
    TargetedDevicesMembers(trace.macs, targets, trace.numbered.claims);
    assert o in deployed;
    DeploymentNames(|trace.numbered.obligations|, Reached(trace), o.target);
  }

  // The conclusion.

  /** The devices at warning or above. */
  function ImpactedDevices(devices: seq<DeviceMonitoring>): seq<DeviceImpact> {
    if devices == [] then []
    else
      var d := devices[0];
      (if d.peak.Some? && Rank(d.peak.value) >= Rank(Warning) then [DeviceImpact(d.mac, d.peak.value, [])] else [])
      + ImpactedDevices(devices[1..])
  }

  function Concluded(replay: Replay): Conclusion {
    Conclusion(replay.statuses, replay.peak, replay.current, ImpactedDevices(replay.devices))
  }

  lemma {:induction false} ImpactedDevicesWithin(devices: seq<DeviceMonitoring>, peak: Band)
    requires forall d | d in devices && d.peak.Some? :: Rank(d.peak.value) <= Rank(peak)
    ensures ImpactsWithin(ImpactedDevices(devices), peak)
  {
    if devices != [] {
      ImpactedDevicesWithin(devices[1..], peak);
      assert devices[0] in devices;
    }
  }

  /** Whatever the sessions recorded, the replay's conclusion meets the contract's invariant. */
  lemma ConcludedIsValid(replay: Replay, obligations: seq<Obligation>, devices: RowDevices,
                         sessions: seq<MonitoringRecord>, frame: Frame)
    requires devices.Valid() && StatusesOf(replay.statuses, obligations, devices, sessions, frame)
    requires SeverityOf(replay.devices, replay.peak, replay.current)
    requires Consecutive(obligations)
    ensures ValidConclusion(Concluded(replay))
  {
    ImpactedDevicesWithin(replay.devices, replay.peak);
    forall id | id in replay.statuses
      ensures ValidStatus(replay.statuses[id])
    {
      assert MonitoringId(obligations, id);
      var o :| o in obligations && o.kind == MonitoringKind && o.id == id;
      assert StatusFor(replay.statuses, o, devices, sessions, frame);
      ResultsValid(o, devices.Reached(o.target), sessions, frame);
    }
  }

  lemma ResultsValid(o: Obligation, macs: seq<Name>, sessions: seq<MonitoringRecord>, frame: Frame)
    requires IsCheck(o)
    ensures ValidStatus(Aggregate(ResultsFor(o, macs, sessions, frame)))
  {
    AggregateMeans(ResultsFor(o, macs, sessions, frame));
    forall i | 0 <= i < |macs| {
      DeviceCheckValid(SessionOf(sessions, frame, macs[i]), frame, o.metric.value, o.policy.value);
    }
    assert forall r | r in ResultsFor(o, macs, sessions, frame) :: ValidStatus(r.status);
  }

  /** The conclusion names exactly the devices whose own peak is at warning or above, each with that peak. */
  lemma {:induction false} ImpactedExactly(devices: seq<DeviceMonitoring>, i: DeviceImpact)
    ensures i in ImpactedDevices(devices)
       <==> i.evidence == [] && i.severity in {Warning, Critical}
            && exists d :: d in devices && d.mac == i.mac && d.peak == Some(i.severity)
  {
    if devices != [] {
      ImpactedExactly(devices[1..], i);
      assert forall d :: d in devices <==> d == devices[0] || d in devices[1..];
    }
  }

  /** The conclusion's bands are the worst peak and the worst current of its devices. */
  lemma ConcludedBands(replay: Replay)
    requires SeverityOf(replay.devices, replay.peak, replay.current)
    ensures SeverityOf(replay.devices, Concluded(replay).peak, Concluded(replay).current)
    ensures Concluded(replay).statuses == replay.statuses
  {
  }
}
