/** What the phases of an attempt hand on: the device rows of the verdict, and one gap for each phase that failed. */
module AttemptTheorems {
  import opened Contracts
  import opened Ordering
  import opened Obligations
  import opened Attempt
  import Composition
  import DT = DeploymentTheorems
  import MonitoringStatuses

  /** The monitored device measured these bands of its own, at a known site. */
  predicate MeasuredRow(d: MonitoringStatuses.DeviceMonitoring, s: Composition.DeviceSeverity) {
    d.mac == s.mac && d.site == Some(s.site) && d.peak == Some(s.peak) && d.current == Some(s.current)
  }

  ghost predicate SomeMeasured(monitored: seq<MonitoringStatuses.DeviceMonitoring>, mac: Name) {
    exists d, s :: d in monitored && MeasuredRow(d, s) && d.mac == mac
  }

  lemma {:induction false} MeasuredExactly(monitored: seq<MonitoringStatuses.DeviceMonitoring>,
                                           s: Composition.DeviceSeverity)
    ensures s in Measured(monitored) <==> exists d :: d in monitored && MeasuredRow(d, s)
  {
    if monitored != [] {
      MeasuredExactly(monitored[1..], s);
      var first := monitored[0];
      assert MeasuredRow(first, s)
        <==> first.site.Some? && first.peak.Some? && first.current.Some?
             && s == Composition.DeviceSeverity(first.mac, first.site.value, first.peak.value, first.current.value);
      assert forall d :: d in monitored <==> d == monitored[0] || d in monitored[1..];
    }
  }

  lemma {:induction false} LocatedExactly(paired: seq<DT.DeviceDeployment>, listed: set<Name>,
                                          s: Composition.DeviceSeverity)
    ensures s in Located(paired, listed)
       <==> s.mac !in listed && s.peak == NoImpact && s.current == NoImpact
            && exists d :: d in paired && d.mac == s.mac && d.site == Some(s.site)
  {
    if paired != [] {
      LocatedExactly(paired[1..], listed, s);
      assert forall d :: d in paired <==> d == paired[0] || d in paired[1..];
    }
  }

  /** The rows composition is given: every monitored device at a known site with the bands it measured, and every other
      paired device at a known site with none, so that what plug-ins and the agent say of it can be placed. */
  lemma SeveritiesExactly(monitored: seq<MonitoringStatuses.DeviceMonitoring>, paired: seq<DT.DeviceDeployment>,
                          s: Composition.DeviceSeverity)
    ensures s in Severities(monitored, paired)
       <==> (exists d :: d in monitored && MeasuredRow(d, s))
            || (!SomeMeasured(monitored, s.mac) && s.peak == NoImpact && s.current == NoImpact
                && exists d :: d in paired && d.mac == s.mac && d.site == Some(s.site))
  {
    var measured := Measured(monitored);
    var listed := set x | x in measured :: x.mac;
    MeasuredExactly(monitored, s);
    LocatedExactly(paired, listed, s);
    if s.mac in listed {
      var x :| x in measured && x.mac == s.mac;
      MeasuredExactly(monitored, x);
    }
    if SomeMeasured(monitored, s.mac) {
      var d, x :| d in monitored && MeasuredRow(d, x) && d.mac == s.mac;
      MeasuredExactly(monitored, x);
      assert x in measured;
    }
  }

  /** Each failed phase leaves one gap, and only those do. */
  lemma FailuresExactly(p: Phases)
    ensures Failures(p) == []
       <==> !p.pairingFails && !p.pairingEvidenceFails && !p.monitoringFails && !p.monitoringEvidenceFails
    ensures |Failures(p)| == (if p.pairingFails then 1 else 0) + (if p.pairingEvidenceFails then 1 else 0)
                             + (if p.monitoringFails then 1 else 0) + (if p.monitoringEvidenceFails then 1 else 0)
    ensures forall r | r in Failures(p) :: r == PHASE_FAILED
  {
  }

  /** Without the replays no status but the plug-ins' own is reported, and no device has a row. */
  lemma FailedReplaysAreSilent(run: Run, g: Given, p: Phases)
    requires Judged(run, g, p) && p.pairingFails && p.monitoringFails
    ensures forall id | id in run.reported :: RuleId(run.examined, id)
    ensures run.inputs.devices == []
  {
  }
}
