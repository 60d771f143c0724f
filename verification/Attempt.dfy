/** One attempt, end to end: the change set, the ledger, both replays, coverage and the composed verdict; and what a
    published verdict then says about the change. */
module Attempt {
  import opened Contracts
  import opened Ordering
  import opened Change
  import opened Obligations
  import opened Conclusions
  import opened Targeting
  import opened Numbering
  import opened Ledger
  import opened LedgerTheorems
  import Evidence
  import Composition
  import Deployment
  import DT = DeploymentTheorems
  import D = DeploymentReplay
  import M = MonitoringTheorems
  import MonitoringStatuses
  import opened MonitoringReplay

  datatype AttemptError =
    | ChangeFailed(change: ChangeError)
    | LedgerFailed(ledger: LedgerError)
    | ReportFailed(report: LedgerError)
    | VerdictFailed

  /** What the attempt was given: the audit, its objects, receipts and sessions, and what it could not see. */
  datatype Given = Given(
    audit: Name,
    auditTime: Option<int>,
    receivedAt: int,
    asOf: int,
    changes: seq<ObjectChange>,
    receipts: seq<Deployment.Receipt>,
    sessions: seq<MonitoringStatuses.MonitoringRecord>,
    unseen: seq<Reason>)

  /** What the isolated phases came to: which of them failed, what the plug-ins concluded, and the agent's report. */
  datatype Phases = Phases(
    pairingFails: bool,
    pairingEvidenceFails: bool,
    monitoringFails: bool,
    monitoringEvidenceFails: bool,
    rules: seq<Composition.RuleConclusion>,
    agent: Option<AgentConclusion>,
    evidence: seq<Composition.EvidenceItem>)

  datatype Sizes = Sizes(
    budget: int,
    view: Composition.Listing -> nat,
    counts: multiset<Band> -> nat,
    device: CompactDevice -> nat)

  /** One valid conclusion for each plug-in that concluded. */
  ghost predicate ValidPhases(p: Phases) {
    && (forall r | r in p.rules :: ValidConclusion(r.conclusion))
    && (forall i, j | 0 <= i < j < |p.rules| :: p.rules[i].plugin != p.rules[j].plugin)
    && (p.agent.Some? ==> ValidAgent(p.agent.value))
  }

  /** What the attempt built on the way. */
  datatype Run = Run(
    change: ChangeSet,
    expected: seq<ExpectedDevice>,
    plans: seq<PluginPlan>,
    anchor: D.Anchor,
    ledger: Ledger,
    trace: Trace,
    examined: Ledger,
    reported: map<nat, Status>,
    replays: Replays,
    macs: seq<Name>,
    targets: map<Name, Target>,
    inputs: Composition.Inputs)

  /** Both replays as far as they came, and the devices they left to the verdict. */
  datatype Replays = Replays(
    pairing: Option<D.Replay>,
    monitoring: Option<M.Replay>,
    paired: seq<DT.DeviceDeployment>,
    monitored: seq<MonitoringStatuses.DeviceMonitoring>)

  const NOTHING_CONCLUDED: Conclusion := Conclusion(map[], NoImpact, NoImpact, [])

  function FrameOf(g: Given, anchor: D.Anchor): Deployment.Frame {
    Deployment.Frame(g.audit, anchor.changedAt, g.asOf)
  }

  function PairingConclusion(pairing: Option<D.Replay>): Conclusion {
    if pairing.None? then NOTHING_CONCLUDED else D.Concluded(pairing.value)
  }

  function MonitoringConclusion(monitoring: Option<M.Replay>): Conclusion {
    if monitoring.None? then NOTHING_CONCLUDED else M.Concluded(monitoring.value)
  }

  /** The change set, the change time and the expected devices are these inputs'. */
  ghost predicate Begun(run: Run, g: Given) {
    && Change.Built(run.change, Prioritized(g.changes, IdentityLeq))
    && run.anchor == D.ResolveAnchor(g.receipts, g.audit, g.auditTime, g.receivedAt, g.asOf)
    && D.ExpectedFor(run.expected, g.receipts, g.audit, g.asOf)
  }

  /** The ledger the plans were numbered in, and the one with the failed phases' gaps, are these inputs'. */
  ghost predicate Built(run: Run, g: Given) {
    && Begun(run, g) && ValidChangeSet(run.change)
    && ValidPlans(run.plans) && (forall p | p in run.plans :: PlanFits(p, AtomIds(run.change)))
    && LedgerOf(run.ledger, run.trace, run.change, run.expected, run.plans, run.anchor.source, g.unseen)
  }

  /** A failed phase left an unsatisfied observation behind it. */
  ghost predicate Examined(run: Run, failures: seq<Reason>) {
    && Shaped(run.examined)
    && run.examined.obligations == run.ledger.obligations + InputPart(|run.ledger.obligations|, |failures|)
    && run.examined.rows == run.ledger.rows
    && (failures == [] ==> run.examined == run.ledger)
  }

  /** Deployment pairing of every row device; a failed phase leaves no devices, and a failure of either of its steps
      concludes nothing. */
  ghost predicate PairedAll(replays: Replays, g: Given, frame: Deployment.Frame, ledger: Ledger, macs: seq<Name>,
                            targets: map<Name, Target>, p: Phases)
  {
    && (forall mac :: mac in macs <==> mac in targets) && targets == LastTargets(M.RowTargetsOf(ledger.rows))
    && (if p.pairingFails then replays.paired == []
        else D.AllPaired(replays.paired, g.receipts, frame, macs, targets))
    && (replays.pairing.Some? <==> !p.pairingFails && !p.pairingEvidenceFails)
    && (replays.pairing.Some? ==>
          && replays.pairing.value.devices == replays.paired
          && D.SeverityOf(replays.paired, replays.pairing.value.peak, replays.pairing.value.current)
          && replays.pairing.value.preconditions == D.Preconditions(ledger.obligations))
  }

  /** The same of the monitoring replay: exactly the devices a plug-in obligation reaches, each from its own session. */
  ghost predicate MonitoredAll(replays: Replays, g: Given, frame: Deployment.Frame, ledger: Ledger,
                               plans: seq<PluginPlan>, macs: seq<Name>, targets: map<Name, Target>, p: Phases)
  {
    && (if p.monitoringFails then replays.monitored == []
        else MonitoredDevices(replays.monitored, g, frame, ledger, plans, targets))
    && (replays.monitoring.Some? <==> !p.monitoringFails && !p.monitoringEvidenceFails)
    && (replays.monitoring.Some? ==>
          && replays.monitoring.value.devices == replays.monitored
          && M.SeverityOf(replays.monitored, replays.monitoring.value.peak, replays.monitoring.value.current)
          && StatusesOver(replays.monitoring.value.statuses, ledger.obligations, macs, targets, g.sessions, frame))
  }

  /** Every monitoring obligation has one status, over the row devices it reaches, and nothing else has one. */
  ghost predicate StatusesOver(statuses: map<nat, Status>, obligations: seq<Obligation>, macs: seq<Name>,
                               targets: map<Name, Target>, sessions: seq<MonitoringStatuses.MonitoringRecord>,
                               frame: Deployment.Frame)
  {
    && (forall o {:trigger StatusOver(statuses, o, macs, targets, sessions, frame)} |
          o in obligations && o.kind == MonitoringKind :: StatusOver(statuses, o, macs, targets, sessions, frame))
    && (forall id {:trigger M.MonitoringId(obligations, id)} | id in statuses :: M.MonitoringId(obligations, id))
  }

  ghost predicate StatusOver(statuses: map<nat, Status>, o: Obligation, macs: seq<Name>, targets: map<Name, Target>,
                             sessions: seq<MonitoringStatuses.MonitoringRecord>, frame: Deployment.Frame)
  {
    && IsCheck(o) && o.id in statuses
    && statuses[o.id]
       == MonitoringStatuses.Aggregate(M.ResultsFor(o, Filter(macs, ReachedBy(targets, o.target)), sessions, frame))
  }

  ghost predicate MonitoredDevices(devices: seq<MonitoringStatuses.DeviceMonitoring>, g: Given, frame: Deployment.Frame,
                                   ledger: Ledger, plans: seq<PluginPlan>, targets: map<Name, Target>)
  {
    && (forall d | d in devices :: M.ReplayedFrom(d, ledger, targets, plans, g.sessions, frame))
    && (forall mac :: M.Replayed(devices, mac) <==> M.ReachedBySome(ledger.obligations, targets, mac))
  }

  /** What both replays concluded, what the plug-ins reported under ledger ids, and what the verdict is composed of. */
  ghost predicate Judged(run: Run, g: Given, p: Phases) {
    && PairedAll(run.replays, g, FrameOf(g, run.anchor), run.ledger, run.macs, run.targets, p)
    && MonitoredAll(run.replays, g, FrameOf(g, run.anchor), run.ledger, run.plans, run.macs, run.targets, p)
    && ReportedAs(run.reported, run.examined, Replayed(run.replays), p.rules)
    && run.inputs == Composition.Inputs(CoverageOf(run.examined, run.reported),
                                        Some(MonitoringConclusion(run.replays.monitoring)),
                                        Some(PairingConclusion(run.replays.pairing)), p.rules, p.agent, p.evidence,
                                        Severities(run.replays.monitored, run.replays.paired))
  }

  function Replayed(replays: Replays): map<nat, Status> {
    PairingConclusion(replays.pairing).statuses + MonitoringConclusion(replays.monitoring).statuses
  }

  const PHASE_FAILED: Reason := Stated(Name("phase failed"))

  function Failures(p: Phases): seq<Reason> {
    (if p.pairingFails then [PHASE_FAILED] else []) + (if p.pairingEvidenceFails then [PHASE_FAILED] else [])
    + (if p.monitoringFails then [PHASE_FAILED] else []) + (if p.monitoringEvidenceFails then [PHASE_FAILED] else [])
  }

  // Plug-in statuses join the replays'.

  /** Appending input observations adds no rule obligation of a plug-in. */
  lemma RulesApartLater(before: Ledger, after: Ledger, n: nat, plugin: Name)
    requires RulesApart(before, plugin) && after.planIds == before.planIds
    requires plugin == CORE ==> PluginIds(before.planIds, CORE) == map[]
    requires after.obligations == before.obligations + InputPart(|before.obligations|, n)
    ensures RulesApart(after, plugin)
  {
    InputPartMembers(|before.obligations|, n);
    forall local | Maps(after, plugin, local)
      ensures Maps(before, plugin, local)
    {
      var o :| o in after.obligations && o.id == PluginIds(after.planIds, plugin)[local] && o.owner == plugin
               && o.kind == RuleKind;
      assert o in before.obligations;
    }
  }

  ghost predicate IdsApart(ledger: Ledger) {
    forall o, q | o in ledger.obligations && q in ledger.obligations && o.id == q.id :: o == q
  }

  /** A numbered plug-in's statuses, each under the ledger id of its own rule obligation. */
  ghost predicate Reports(reported: map<nat, Status>, ledger: Ledger, rule: Composition.RuleConclusion) {
    rule.plugin in ledger.planIds ==>
      forall local | local in rule.conclusion.statuses ::
        Maps(ledger, rule.plugin, local) && Rekeyed(reported, ledger, rule.plugin, rule.conclusion.statuses, local)
  }

  /** Every plug-in's statuses, and the replays' for everything that is no rule obligation. */
  ghost predicate ReportedAs(reported: map<nat, Status>, ledger: Ledger, before: map<nat, Status>,
                             rules: seq<Composition.RuleConclusion>)
  {
    && before.Keys <= reported.Keys
    && (forall id | id in reported :: (id in before && reported[id] == before[id]) || RuleId(ledger, id))
    && (forall k | 0 <= k < |rules| :: Reports(reported, ledger, rules[k]))
  }

  ghost predicate RuleId(ledger: Ledger, id: nat) {
    exists o :: o in ledger.obligations && o.id == id && o.kind == RuleKind
  }

  lemma ReportsKept(reported: map<nat, Status>, own: map<nat, Status>, ledger: Ledger, rule: Composition.RuleConclusion,
                    other: Name)
    requires IdsApart(ledger) && Reports(reported, ledger, rule) && rule.plugin != other
    requires forall id | id in own :: OwnRule(ledger, other, id)
    ensures Reports(reported + own, ledger, rule)
  {
  }

  lemma ReportedStep(reported: map<nat, Status>, own: map<nat, Status>, ledger: Ledger, before: map<nat, Status>,
                     rules: seq<Composition.RuleConclusion>, rule: Composition.RuleConclusion)
    requires IdsApart(ledger) && ReportedAs(reported, ledger, before, rules)
    requires forall k | 0 <= k < |rules| :: rules[k].plugin != rule.plugin
    requires forall id | id in own :: OwnRule(ledger, rule.plugin, id)
    requires Reports(own, ledger, rule)
    ensures ReportedAs(reported + own, ledger, before, rules + [rule])
  {
    forall k | 0 <= k < |rules| {
      ReportsKept(reported, own, ledger, rules[k], rule.plugin);
    }
    forall id | id in own
      ensures RuleId(ledger, id)
    {
      assert OwnRule(ledger, rule.plugin, id);
    }
  }

  /** One more plug-in's statuses; one with no plan or nothing to say adds none. */
  method AddRule(reported: map<nat, Status>, ledger: Ledger, ghost before: map<nat, Status>,
                 ghost rules: seq<Composition.RuleConclusion>, rule: Composition.RuleConclusion)
    returns (r: Result<map<nat, Status>, LedgerError>)
    requires IdsApart(ledger) && ReportedAs(reported, ledger, before, rules)
    requires rule.plugin in ledger.planIds ==> RulesApart(ledger, rule.plugin)
    requires forall k | 0 <= k < |rules| :: rules[k].plugin != rule.plugin
    ensures r.Err? <==> Foreign(ledger, rule)
    ensures r.Ok? ==> ReportedAs(r.value, ledger, before, rules + [rule])
  {
    var own: map<nat, Status> := map[];
    if rule.plugin in ledger.planIds && rule.conclusion.statuses != map[] {
      own :- RuleStatuses(ledger, rule.plugin, rule.conclusion.statuses);
    }
    ReportedStep(reported, own, ledger, before, rules, rule);
    r := Ok(reported + own);
  }

  /** A plug-in with a plan that reports on anything but its own rule obligations. */
  predicate Foreign(ledger: Ledger, rule: Composition.RuleConclusion) {
    rule.plugin in ledger.planIds && exists local | local in rule.conclusion.statuses :: !Maps(ledger, rule.plugin, local)
  }

  /** Add every plug-in's own statuses, under ledger ids. */
  method AddRuleStatuses(before: map<nat, Status>, ledger: Ledger, rules: seq<Composition.RuleConclusion>)
    returns (r: Result<map<nat, Status>, LedgerError>)
    requires IdsApart(ledger) && forall plugin | plugin in ledger.planIds :: RulesApart(ledger, plugin)
    requires forall i, j | 0 <= i < j < |rules| :: rules[i].plugin != rules[j].plugin
    ensures r.Err? <==> exists k :: 0 <= k < |rules| && Foreign(ledger, rules[k])
    ensures r.Ok? ==> ReportedAs(r.value, ledger, before, rules)
  {
    var reported := before;
    for i := 0 to |rules|
      invariant forall k | 0 <= k < i :: !Foreign(ledger, rules[k])
      invariant ReportedAs(reported, ledger, before, rules[..i])
    {
      Taking(rules, i);
      reported :- AddRule(reported, ledger, before, rules[..i], rules[i]);
    }
    Taken(rules);
    r := Ok(reported);
  }

  // What the phases came to.

  function Measured(devices: seq<MonitoringStatuses.DeviceMonitoring>): seq<Composition.DeviceSeverity> {
    if devices == [] then []
    else
      var d := devices[0];
      (if d.site.Some? && d.peak.Some? && d.current.Some?
       then [Composition.DeviceSeverity(d.mac, d.site.value, d.peak.value, d.current.value)] else [])
      + Measured(devices[1..])
  }

  function Located(devices: seq<DT.DeviceDeployment>, listed: set<Name>): seq<Composition.DeviceSeverity> {
    if devices == [] then []
    else
      var d := devices[0];
      (if d.site.Some? && d.mac !in listed
       then [Composition.DeviceSeverity(d.mac, d.site.value, NoImpact, NoImpact)] else [])
      + Located(devices[1..], listed)
  }

  lemma {:induction false} MeasuredOrdered(devices: seq<MonitoringStatuses.DeviceMonitoring>)
    requires forall d | d in devices :: MonitoringStatuses.ValidDeviceReplay(d)
    ensures forall s | s in Measured(devices) :: Ordered(s.peak, s.current)
  {
    if devices != [] {
      assert devices[0] in devices;
      MeasuredOrdered(devices[1..]);
    }
  }

  lemma {:induction false} LocatedOrdered(devices: seq<DT.DeviceDeployment>, listed: set<Name>)
    ensures forall s | s in Located(devices, listed) :: Ordered(s.peak, s.current)
  {
    if devices != [] {
      LocatedOrdered(devices[1..], listed);
    }
  }

  /** The bands an exclusive monitoring replay measured, then the site of every other device. */
  function Severities(monitored: seq<MonitoringStatuses.DeviceMonitoring>, paired: seq<DT.DeviceDeployment>)
    : seq<Composition.DeviceSeverity>
  {
    var measured := Measured(monitored);
    measured + Located(paired, set s | s in measured :: s.mac)
  }

  lemma SeveritiesOrdered(monitored: seq<MonitoringStatuses.DeviceMonitoring>, paired: seq<DT.DeviceDeployment>)
    requires forall d | d in monitored :: MonitoringStatuses.ValidDeviceReplay(d)
    ensures forall s | s in Severities(monitored, paired) :: Ordered(s.peak, s.current)
  {
    MeasuredOrdered(monitored);
    LocatedOrdered(paired, set s | s in Measured(monitored) :: s.mac);
  }

  // The phases.

  lemma AreOver(statuses: map<nat, Status>, obligations: seq<Obligation>, devices: RowDevices,
                sessions: seq<MonitoringStatuses.MonitoringRecord>, frame: Deployment.Frame)
    requires devices.Valid() && M.StatusesOf(statuses, obligations, devices, sessions, frame)
    ensures StatusesOver(statuses, obligations, devices.macs, devices.targets, sessions, frame)
  {
    forall o | o in obligations && o.kind == MonitoringKind
      ensures StatusOver(statuses, o, devices.macs, devices.targets, sessions, frame)
    {
      assert M.StatusFor(statuses, o, devices, sessions, frame);
    }
  }

  /** Both replays, each isolated: its failures leave nothing of it behind. */
  method Replay(g: Given, frame: Deployment.Frame, ledger: Ledger, plans: seq<PluginPlan>, p: Phases)
    returns (replays: Replays, ghost macs: seq<Name>, ghost targets: map<Name, Target>)
    requires M.MonitoringPlanned(ledger)
    ensures PairedAll(replays, g, frame, ledger, macs, targets, p)
    ensures MonitoredAll(replays, g, frame, ledger, plans, macs, targets, p)
    ensures ValidConclusion(PairingConclusion(replays.pairing)) && ValidConclusion(MonitoringConclusion(replays.monitoring))
    ensures forall d | d in Severities(replays.monitored, replays.paired) :: Ordered(d.peak, d.current)
  {
    var pairing, pairedOver := D.PairDeployments(g.receipts, frame, ledger, M.RowTargetsOf(ledger.rows));
    macs, targets := pairedOver.macs, pairedOver.targets;
    D.ConcludedIsValid(pairing, g.receipts, frame, macs, targets);
    var monitoring, monitoredOver := M.ReplayMonitoring(g.sessions, frame, ledger, plans);
    M.ConcludedIsValid(monitoring, ledger.obligations, monitoredOver, g.sessions, frame);
    AscendingMembers(macs, monitoredOver.macs);
    AreOver(monitoring.statuses, ledger.obligations, monitoredOver, g.sessions, frame);
    var monitored := if p.monitoringFails then [] else monitoring.devices;
    replays := Replays(
      if p.pairingFails || p.pairingEvidenceFails then None else Some(pairing),
      if p.monitoringFails || p.monitoringEvidenceFails then None else Some(monitoring),
      if p.pairingFails then [] else pairing.devices, monitored);
    SeveritiesOrdered(monitored, replays.paired);
  }

  /** The deployment statuses survive the monitoring and rule ones: no obligation is of two kinds. */
  lemma PairingKept(ledger: Ledger, pairing: D.Replay, monitored: map<nat, Status>, reported: map<nat, Status>,
                    rules: seq<Composition.RuleConclusion>)
    requires IdsApart(ledger) && Consecutive(ledger.obligations)
    requires pairing.preconditions == D.Preconditions(ledger.obligations)
    requires forall id | id in monitored :: M.MonitoringId(ledger.obligations, id)
    requires ReportedAs(reported, ledger, D.Statuses(pairing) + monitored, rules)
    ensures forall id | id in D.Statuses(pairing) :: id in reported && reported[id] == D.Statuses(pairing)[id]
  {
    D.PreconditionsName(ledger.obligations);
    forall id | id in monitored
      ensures id !in pairing.preconditions
    {
      assert M.MonitoringId(ledger.obligations, id);
    }
    forall id | id in D.Statuses(pairing)
      ensures id in reported && reported[id] == D.Statuses(pairing)[id]
    {
      assert id in pairing.preconditions && id in D.Statuses(pairing) + monitored;
      assert !RuleId(ledger, id);
    }
  }

  /** No plan is the core's own. */
  lemma NoCorePlan(ledger: Ledger, trace: Trace, change: ChangeSet, expected: seq<ExpectedDevice>,
                   plans: seq<PluginPlan>, anchor: AnchorSource, inputs: seq<Reason>)
    requires ValidChangeSet(change) && LedgerOf(ledger, trace, change, expected, plans, anchor, inputs)
    requires forall p | p in plans :: PlanFits(p, AtomIds(change))
    ensures PluginIds(ledger.planIds, CORE) == map[]
  {
    FlattenMembers(plans);
    forall local
      ensures local !in PluginIds(ledger.planIds, CORE)
    {
      if PlannedAs(Flatten(plans), CORE, local) {
        var j :| 0 <= j < |Flatten(plans)| && Flatten(plans)[j].plugin == CORE;
        assert Flatten(plans)[j] in Flatten(plans);
        assert false;
      }
    }
  }

  // The attempt.

  /** The ledger with its late gaps, and every status reported on it. */
  method Examine(ledger: Ledger, replays: Replays, p: Phases)
    returns (r: Result<map<nat, Status>, LedgerError>, examined: Ledger)
    requires M.MonitoringPlanned(ledger) && Consecutive(ledger.obligations) && ValidPhases(p)
    requires forall plugin :: RulesApart(ledger, plugin)
    requires PluginIds(ledger.planIds, CORE) == map[]
    ensures Shaped(examined) && examined.rows == ledger.rows
    ensures examined.obligations == ledger.obligations + InputPart(|ledger.obligations|, |Failures(p)|)
    ensures Failures(p) == [] ==> examined == ledger
    ensures r.Err? <==> exists k :: 0 <= k < |p.rules| && Foreign(examined, p.rules[k])
    ensures r.Ok? ==> ReportedAs(r.value, examined, Replayed(replays), p.rules)
  {
    examined := WithGaps(ledger, Failures(p));
    forall plugin | plugin in examined.planIds
      ensures RulesApart(examined, plugin)
    {
      RulesApartLater(ledger, examined, |Failures(p)|, plugin);
    }
    r := AddRuleStatuses(Replayed(replays), examined, p.rules);
  }

  /** Judge one audit: build its change set and ledger, replay, and compose the verdict. */
  method ExecuteAttempt(g: Given, planFor: (ChangeSet, seq<ExpectedDevice>) -> seq<PluginPlan>, p: Phases, sizes: Sizes)
    returns (r: Result<Verdict, AttemptError>, ghost run: Run)
    requires ValidPhases(p) && forall c | c in g.changes :: Walked(c)
    requires forall change, expected :: ValidPlans(planFor(change, expected))
    ensures r.Ok? ==> ValidVerdict(r.value) && Composition.Composed(r.value, run.inputs)
    ensures r.Err? && r.error.ChangeFailed?
       <==> RepeatsVersion(Prioritized(g.changes, IdentityLeq)) || exists c :: c in g.changes && !AllNameable(c)
    ensures !(r.Err? && r.error.ChangeFailed?) ==> Begun(run, g)
    ensures r.Err? && r.error.LedgerFailed?
        ==> exists plan :: plan in planFor(run.change, run.expected) && !PlanFits(plan, AtomIds(run.change))
    ensures r.Ok? || r.error.ReportFailed? || r.error.VerdictFailed?
        ==> Built(run, g) && Examined(run, Failures(p))
            && run.plans == Prioritized(planFor(run.change, run.expected), PluginLeq)
    ensures r.Err? && r.error.ReportFailed? ==> exists k :: 0 <= k < |p.rules| && Foreign(run.examined, p.rules[k])
    ensures r.Ok? || r.error.VerdictFailed? ==> Judged(run, g, p)
    ensures r.Err? && r.error.VerdictFailed? ==> exists rows, bands :: Oversized(rows, bands, run.inputs, sizes)
    ensures r.Ok? ==> exists rows, bands :: Listed(r.value, rows, bands, run.inputs, sizes)
  {
    run := Run(ChangeSet([], []), [], [], D.Anchor(0, ReceiptTime), NO_LEDGER, Trace(State([], [], map[], map[]), [], []),
               NO_LEDGER, map[], Replays(None, None, [], []), [], map[],
               Composition.Inputs(Partial, None, None, [], None, [], []));
    var built := BuildChangeSet(g.changes);
    if built.Err? {
      return Err(ChangeFailed(built.error)), run;
    }
    var change := built.value;
    BuiltIsValid(change, Prioritized(g.changes, IdentityLeq));
    var anchor := D.ResolveAnchor(g.receipts, g.audit, g.auditTime, g.receivedAt, g.asOf);
    var expected := D.ExpectedDevices(g.receipts, g.audit, g.asOf);
    var plans := planFor(change, expected);
    run := run.(change := change, anchor := anchor, expected := expected);
    ghost var trace;
    var ledger;
    ledger, trace := BuildLedger(change, expected, plans, anchor.source, g.unseen);
    if ledger.Err? {
      return Err(LedgerFailed(ledger.error)), run;
    }
    var sortedPlans := Prioritized(plans, PluginLeq);
    SortedPlansValid(plans, AtomIds(change));
    ExpectedSorted(expected);
    BuiltLedgerReady(ledger.value, trace, change, expected, sortedPlans, anchor.source, g.unseen);
    var replays, macs, targets := Replay(g, FrameOf(g, anchor), ledger.value, sortedPlans, p);
    var reported, examined := Examine(ledger.value, replays, p);
    run := run.(plans := sortedPlans, ledger := ledger.value, trace := trace, examined := examined);
    if reported.Err? {
      return Err(ReportFailed(reported.error)), run;
    }
    var inputs := Composition.Inputs(CoverageOf(examined, reported.value), Some(MonitoringConclusion(replays.monitoring)),
                                     Some(PairingConclusion(replays.pairing)), p.rules, p.agent, p.evidence,
                                     Severities(replays.monitored, replays.paired));
    run := run.(reported := reported.value, replays := replays, macs := macs, targets := targets, inputs := inputs);
    r := ComposeVerdict(inputs, sizes);
  }

  /** The verdict these inputs compose to, or the failure to list its devices within the budget. */
  method ComposeVerdict(inputs: Composition.Inputs, sizes: Sizes) returns (r: Result<Verdict, AttemptError>)
    requires Composition.ValidInputs(inputs)
    ensures r.Ok? ==> ValidVerdict(r.value) && Composition.Composed(r.value, inputs)
    ensures r.Ok? ==> exists rows, bands :: Listed(r.value, rows, bands, inputs, sizes)
    ensures r.Err? ==> r.error.VerdictFailed? && exists rows, bands :: Oversized(rows, bands, inputs, sizes)
  {
    var verdict, rows, bands := Composition.Compose(inputs, sizes.budget, sizes.view, sizes.counts, sizes.device);
    if verdict.Err? {
      assert Oversized(rows, bands, inputs, sizes);
      return Err(VerdictFailed);
    }
    assert Listed(verdict.value, rows, bands, inputs, sizes);
    r := Ok(verdict.value);
  }

  /** Expected devices come in the order the ledger sorts them to. */
  lemma ExpectedSorted(expected: seq<ExpectedDevice>)
    requires forall i, j | 0 <= i < j < |expected| :: NameBefore(expected[i].mac, expected[j].mac)
    ensures Prioritized(expected, MacLeq) == expected
  {
    NameOrder();
    PrioritizedFixed(expected, MacLeq);
  }

  const NO_LEDGER: Ledger := Ledger([], [], map[], map[], [])

  /** The devices the verdict could list. */
  ghost predicate RowsFor(rows: seq<CompactDevice>, bands: map<Name, Composition.Bands>, inputs: Composition.Inputs) {
    && Composition.BandsAre(bands, Composition.Known(inputs.devices), Composition.AllClaims(inputs))
    && Composition.RowsAre(rows, bands, Composition.Known(inputs.devices))
  }

  /** Counting them alone exceeds the budget. */
  ghost predicate Oversized(rows: seq<CompactDevice>, bands: map<Name, Composition.Bands>, inputs: Composition.Inputs,
                            sizes: Sizes)
  {
    && RowsFor(rows, bands, inputs)
    && sizes.view(Composition.Listing([], Evidence.Categories(rows, Composition.PeakOf))) > sizes.budget
  }

  /** The verdict lists those of them the budget keeps, and counts the rest. */
  ghost predicate Listed(v: Verdict, rows: seq<CompactDevice>, bands: map<Name, Composition.Bands>,
                         inputs: Composition.Inputs, sizes: Sizes)
  {
    && RowsFor(rows, bands, inputs) && |v.devices| + v.devicesOmitted == |rows|
    && Evidence.BoundedKeeps(v.devices, rows, sizes.budget, Composition.ListedLeq, Composition.PeakOf,
                             Composition.NewListing, sizes.view, sizes.counts, sizes.device)
  }

  /** A built ledger is fit for the replays. */
  lemma BuiltLedgerReady(ledger: Ledger, trace: Trace, change: ChangeSet, expected: seq<ExpectedDevice>,
                         plans: seq<PluginPlan>, anchor: AnchorSource, inputs: seq<Reason>)
    requires ValidChangeSet(change) && ValidPlans(plans)
    requires forall p | p in plans :: PlanFits(p, AtomIds(change))
    requires LedgerOf(ledger, trace, change, expected, plans, anchor, inputs)
    ensures M.MonitoringPlanned(ledger) && Consecutive(ledger.obligations)
    ensures forall plugin :: RulesApart(ledger, plugin)
    ensures PluginIds(ledger.planIds, CORE) == map[]
  {
    LedgerShaped(ledger, trace, change, expected, plans, anchor, inputs);
    NoCorePlan(ledger, trace, change, expected, plans, anchor, inputs);
    forall plugin {
      BuiltRulesApart(ledger, trace, change, expected, plans, anchor, inputs, plugin);
    }
  }

  // What a published `none` says.

  /** The location is on an atom of its object, on a row, and addressed by a plug-in on every target of that atom. */
  ghost predicate AddressedEverywhere(run: Run, c: ObjectChange, path: Path) {
    exists atom :: AddressedAs(run, c, path, atom)
  }

  ghost predicate AddressedAs(run: Run, c: ObjectChange, path: Path, atom: Atom) {
    && path != [] && atom in run.change.atoms && IsAtomOf(atom, c) && atom.attribute == path[0]
    && HasObject(run.change.objects, atom) && RowTargets(run.change, atom, run.expected) != []
    && forall t | t in RowTargets(run.change, atom, run.expected) :: AddressedByPlugin(run.plans, atom, t, path)
  }

  /** A verdict of no current impact is only ever published when every phase ran, the change time is known, nothing was
      left unseen, the walker saw every object in full, and every location it found changed is addressed by a plug-in
      on every device the change applies to; and the deployment is confirmed on every device an obligation targets. Every
      monitoring obligation then reaches a device, each device it reaches measured the metric in both windows of a session
      of its own that ended, or had no data where the plug-in accepts that, and no device is at warning now. */
  lemma NoneIsPublishedOnlyExamined(run: Run, g: Given, p: Phases, v: Verdict)
    requires Built(run, g) && Examined(run, Failures(p)) && Judged(run, g, p)
    requires forall c | c in g.changes :: Walked(c)
    requires ValidVerdict(v) && Composition.Composed(v, run.inputs) && v.current == NoImpact
    ensures Failures(p) == [] && run.anchor.source != ReceiptTime && g.unseen == []
    ensures forall c, path | c in g.changes && path in c.paths :: c.complete && AddressedEverywhere(run, c, path)
    ensures forall o | o in run.ledger.obligations && o.kind == DeploymentKind ::
              o.target.device.Some? && D.Confirmed(g.receipts, FrameOf(g, run.anchor), o.target.device.value)
    ensures forall o | o in run.ledger.obligations && o.kind == MonitoringKind ::
              ObservedOn(run.targets, g.sessions, FrameOf(g, run.anchor), o)
    ensures forall d | d in run.replays.monitored && d.current.Some? :: Rank(d.current.value) < Rank(Warning)
  {
    if Failures(p) != [] {
      GapsForcePartial(run.ledger, run.examined, Failures(p), run.reported);
    }
    assert CoverageOf(run.ledger, run.reported) == Complete;
    CoverageExact(run.ledger, run.trace, run.change, run.expected, run.plans, run.anchor.source, g.unseen, run.reported);
    forall c, path | c in g.changes && path in c.paths
      ensures c.complete && AddressedEverywhere(run, c, path)
    {
      NoneAddresses(run, g, c, path);
    }
    NoneConfirms(run, g, p);
    NoneMeasures(run, g, p);
    NoneIsCalm(run.replays, run.inputs);
  }

  /** The obligation reaches a row device, and each row device it reaches resolved its check. */
  ghost predicate ObservedOn(targets: map<Name, Target>, sessions: seq<MonitoringStatuses.MonitoringRecord>,
                             frame: Deployment.Frame, o: Obligation)
  {
    && IsCheck(o)
    && (exists mac :: mac in targets && Reaches(o.target, targets[mac]))
    && forall mac | mac in targets && Reaches(o.target, targets[mac]) ::
         M.MeasuredOn(o, mac, sessions, frame) || M.EmptyOn(o, mac, sessions, frame)
  }

  /** The monitoring statuses come after the deployment ones, and the rule ones leave them alone. */
  lemma MonitoringKept(ledger: Ledger, paired: map<nat, Status>, monitored: map<nat, Status>, reported: map<nat, Status>,
                       rules: seq<Composition.RuleConclusion>)
    requires IdsApart(ledger) && forall id | id in monitored :: M.MonitoringId(ledger.obligations, id)
    requires ReportedAs(reported, ledger, paired + monitored, rules)
    ensures forall id | id in monitored :: id in reported && reported[id] == monitored[id]
  {
    forall id | id in monitored
      ensures id in reported && reported[id] == monitored[id]
    {
      assert M.MonitoringId(ledger.obligations, id) && id in paired + monitored;
      assert !RuleId(ledger, id);
    }
  }

  lemma AcceptedOn(statuses: map<nat, Status>, o: Obligation, macs: seq<Name>, targets: map<Name, Target>,
                   sessions: seq<MonitoringStatuses.MonitoringRecord>, frame: Deployment.Frame)
    requires StatusOver(statuses, o, macs, targets, sessions, frame) && statuses[o.id].value != Unsatisfied
    requires forall mac :: mac in macs <==> mac in targets
    ensures ObservedOn(targets, sessions, frame, o)
  {
    var reached := Filter(macs, ReachedBy(targets, o.target));
    FilterMembers(macs, ReachedBy(targets, o.target));
    M.AcceptedRestsOnMeasurements(o, reached, sessions, frame);
    assert reached[0] in reached;
  }

  lemma AllObserved(ledger: Ledger, reported: map<nat, Status>, paired: map<nat, Status>, statuses: map<nat, Status>,
                    rules: seq<Composition.RuleConclusion>, macs: seq<Name>, targets: map<Name, Target>,
                    sessions: seq<MonitoringStatuses.MonitoringRecord>, frame: Deployment.Frame)
    requires M.MonitoringPlanned(ledger) && CoverageOf(ledger, reported) == Complete
    requires StatusesOver(statuses, ledger.obligations, macs, targets, sessions, frame)
    requires ReportedAs(reported, ledger, paired + statuses, rules)
    requires forall mac :: mac in macs <==> mac in targets
    ensures forall o | o in ledger.obligations && o.kind == MonitoringKind :: ObservedOn(targets, sessions, frame, o)
  {
    ShapedComplete(ledger, reported);
    MonitoringKept(ledger, paired, statuses, reported, rules);
    forall o | o in ledger.obligations && o.kind == MonitoringKind
      ensures ObservedOn(targets, sessions, frame, o)
    {
      assert StatusOver(statuses, o, macs, targets, sessions, frame);
      AcceptedOn(statuses, o, macs, targets, sessions, frame);
    }
  }

  lemma NoneMeasures(run: Run, g: Given, p: Phases)
    requires Built(run, g) && run.examined == run.ledger && Judged(run, g, p) && Failures(p) == []
    requires CoverageOf(run.ledger, run.reported) == Complete
    ensures forall o | o in run.ledger.obligations && o.kind == MonitoringKind ::
              ObservedOn(run.targets, g.sessions, FrameOf(g, run.anchor), o)
  {
    BuiltLedgerReady(run.ledger, run.trace, run.change, run.expected, run.plans, run.anchor.source, g.unseen);
    AllObserved(run.ledger, run.reported, PairingConclusion(run.replays.pairing).statuses,
                MonitoringConclusion(run.replays.monitoring).statuses, p.rules, run.macs, run.targets, g.sessions,
                FrameOf(g, run.anchor));
  }

  lemma NoneIsCalm(replays: Replays, inputs: Composition.Inputs)
    requires replays.monitoring.Some? && replays.monitoring.value.devices == replays.monitored
    requires M.SeverityOf(replays.monitored, replays.monitoring.value.peak, replays.monitoring.value.current)
    requires inputs.monitoring == Some(MonitoringConclusion(replays.monitoring))
    requires Composition.PublishedCurrent(inputs) == NoImpact
    ensures forall d | d in replays.monitored && d.current.Some? :: Rank(d.current.value) < Rank(Warning)
  {
    Composition.PublishedCurrentExactly(inputs);
    assert Composition.StatesCurrent(inputs, Composition.AboveInfo(replays.monitoring.value.current));
  }

  lemma NoneConfirms(run: Run, g: Given, p: Phases)
    requires Built(run, g) && run.examined == run.ledger && Judged(run, g, p) && Failures(p) == []
    requires CoverageOf(run.ledger, run.reported) == Complete
    ensures forall o | o in run.ledger.obligations && o.kind == DeploymentKind ::
              o.target.device.Some? && D.Confirmed(g.receipts, FrameOf(g, run.anchor), o.target.device.value)
  {
    LedgerShaped(run.ledger, run.trace, run.change, run.expected, run.plans, run.anchor.source, g.unseen);
    var pairing := run.replays.pairing.value;
    PairingKept(run.ledger, pairing, MonitoringConclusion(run.replays.monitoring).statuses, run.reported, p.rules);
    forall o | o in run.ledger.obligations && o.kind == DeploymentKind
      ensures o.target.device.Some? && D.Confirmed(g.receipts, FrameOf(g, run.anchor), o.target.device.value)
    {
      M.DeploymentsNameRowDevices(run.ledger, run.trace, run.change, run.expected, run.plans, run.anchor.source, g.unseen,
                                  o);
      D.CompleteCoverageConfirmsDeployment(run.ledger, run.reported, pairing, g.receipts, FrameOf(g, run.anchor),
                                           run.macs, run.targets, o);
    }
  }

  lemma NoneAddresses(run: Run, g: Given, c: ObjectChange, path: Path)
    requires Built(run, g) && CoverageOf(run.ledger, run.reported) == Complete
    requires c in g.changes && path in c.paths && Walked(c)
    ensures c.complete && AddressedEverywhere(run, c, path)
  {
    SortedMembers(g.changes, IdentityLeq);
    var atom := CompleteCoverageMissesNothing(run.ledger, run.trace, run.change, Prioritized(g.changes, IdentityLeq),
                                              run.expected, run.plans, run.anchor.source, g.unseen, run.reported, c, path);
    assert AddressedAs(run, c, path, atom);
  }
}
