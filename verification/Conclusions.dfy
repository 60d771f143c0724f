/** What each source concludes: statuses, bands, findings and impacted devices, as the frozen contracts validate them. */
module Conclusions {
  import opened Contracts
  import opened Ordering
  import opened Obligations

  /** A device a conclusion names with one severity, and the evidence it cites. */
  datatype DeviceImpact = DeviceImpact(mac: Name, severity: Band, evidence: seq<nat>)

  datatype Finding = Finding(text: Name, severity: Band, evidence: seq<nat>)

  /** A deterministic source's conclusion; its findings and gaps do not enter composition and are not modelled. */
  datatype Conclusion = Conclusion(statuses: map<nat, Status>, peak: Band, current: Band, devices: seq<DeviceImpact>)

  predicate ImpactsWithin(devices: seq<DeviceImpact>, peak: Band) {
    forall d | d in devices :: Rank(d.severity) <= Rank(peak)
  }

  /** Current within peak, and no impacted device above the peak. */
  predicate ValidConclusion(c: Conclusion) {
    && Ordered(c.peak, c.current) && ImpactsWithin(c.devices, c.peak)
    && forall id | id in c.statuses :: ValidStatus(c.statuses[id])
  }

  /** An accepted agent report, or the reason the agent did not conclude or was skipped. */
  datatype AgentConclusion = AgentConclusion(
    concluded: bool,
    reason: Option<Name>,
    peak: Option<Band>,
    current: Option<Band>,
    confidence: Option<Confidence>,
    evidence: seq<nat>,
    findings: seq<Finding>,
    devices: seq<DeviceImpact>,
    gaps: seq<Name>)

  predicate ValidAgent(a: AgentConclusion) {
    if a.concluded then
      && a.reason.None? && a.peak.Some? && a.current.Some? && a.confidence.Some?
      && Ordered(a.peak.value, a.current.value) && ImpactsWithin(a.devices, a.peak.value)
    else
      && a.reason.Some? && a.peak.None? && a.current.None? && a.confidence.None?
      && a.findings == [] && a.devices == []
  }

  /** The worst band of a group is no worse than the worst of a larger one. */
  lemma WorstGrows(some: seq<Band>, all: seq<Band>)
    requires forall b | b in some :: b in all || b == NoImpact
    ensures Rank(Worst(some)) <= Rank(Worst(all))
  {
    WorstBounds(some);
    WorstBounds(all);
  }
}
