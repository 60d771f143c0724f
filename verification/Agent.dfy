/** The agent's prompt, its turn loop, and the report it may make: what an accepted report must cite, and that trimming
    it to its byte budget never changes the verdict. */
module Agent {
  import opened Contracts
  import opened Ordering
  import opened Evidence
  import opened Conclusions
  import opened Composition

  // The report and its checks.

  /** A finding with its text redacted; redaction can leave nothing, and such a finding is not stored. */
  datatype ReportedFinding = ReportedFinding(text: Option<Name>, severity: Band, evidence: seq<nat>)

  /** An impacted device, with its MAC normalized if it is one. */
  datatype ReportedDevice = ReportedDevice(mac: Option<Name>, severity: Band, evidence: seq<nat>)

  datatype Report = Report(
    peak: Band,
    current: Band,
    confidence: Confidence,
    evidence: seq<nat>,
    findings: seq<ReportedFinding>,
    devices: seq<ReportedDevice>,
    gaps: seq<Name>)

  /** One recorded evidence item: its kind, whether its read succeeded, and the devices it names. */
  datatype Recorded = Recorded(kind: EvidenceKind, citable: bool, names: set<Name>)

  datatype Rejection = SeverityOrder | CitationInvalid | CoverageRequired | CitationRequired | DeviceNotInEvidence

  function ClaimCited(r: Report): set<nat> {
    Ids(r.evidence) + (set f, id | f in r.findings && id in f.evidence :: id)
    + (set d, id | d in r.devices && id in d.evidence :: id)
  }

  /** Severity, a clean `none` and medium confidence rest on service-health evidence. */
  predicate NeedsHealth(r: Report) {
    Rank(r.peak) >= Rank(Warning) || r.peak == NoImpact || r.confidence == Medium
  }

  predicate IsHealth(registry: map<nat, Recorded>, id: nat) {
    id in registry && registry[id].kind == ServiceHealth
  }

  predicate CitesHealth(r: Report, registry: map<nat, Recorded>) {
    exists id | id in ClaimCited(r) :: IsHealth(registry, id)
  }

  predicate InOrder(r: Report) {
    Rank(r.current) <= Rank(r.peak) && forall d | d in r.devices :: Rank(d.severity) <= Rank(r.peak)
  }

  predicate Citable(r: Report, registry: map<nat, Recorded>, visible: set<nat>) {
    forall id | id in ClaimCited(r) :: id in registry && registry[id].citable && id in visible
  }

  predicate Supported(r: Report, registry: map<nat, Recorded>) {
    && (NeedsHealth(r) ==> CitesHealth(r, registry))
    && (forall f | f in r.findings && Rank(f.severity) >= Rank(Warning) :: f.evidence != [])
  }

  predicate DeviceNamed(d: ReportedDevice, registry: map<nat, Recorded>) {
    d.mac.Some? && exists id | id in d.evidence :: id in registry && d.mac.value in registry[id].names
  }

  /** The first rule a report breaks, in the fixed order; none when it is accepted. */
  function Check(r: Report, registry: map<nat, Recorded>, visible: set<nat>, coverage: Coverage): Option<Rejection> {
    if !InOrder(r) then Some(SeverityOrder)
    else if !Citable(r, registry, visible) then Some(CitationInvalid)
    else if r.peak == NoImpact && coverage != Complete then Some(CoverageRequired)
    else if !Supported(r, registry) then Some(CitationRequired)
    else if exists d | d in r.devices :: !DeviceNamed(d, registry) then Some(DeviceNotInEvidence)
    else None
  }

  // The conclusion, trimmed.

  datatype Trimmable = FindingItem(index: nat, finding: Finding) | GapItem(index: nat, gap: Name)

  datatype TrimCategory = FindingCategory | GapCategory

  function CategoryOf(t: Trimmable): TrimCategory {
    if t.FindingItem? then FindingCategory else GapCategory
  }

  /** What gives way last comes first: severity claims worst first, then gaps, then the findings below warning. */
  function TrimRank(t: Trimmable): nat {
    match t
    case FindingItem(_, f) => if Rank(f.severity) >= Rank(Warning) then 0 else 2
    case GapItem(_, _) => 1
  }

  function SeverityRank(t: Trimmable): nat {
    if t.FindingItem? then Rank(t.finding.severity) else 0
  }

  predicate TrimLeq(a: Trimmable, b: Trimmable) {
    if TrimRank(a) != TrimRank(b) then TrimRank(a) < TrimRank(b)
    else if SeverityRank(a) != SeverityRank(b) then SeverityRank(a) > SeverityRank(b)
    else a.index <= b.index
  }

  function Findings(findings: seq<ReportedFinding>): seq<Finding> {
    if findings == [] then []
    else (if findings[0].text.Some? then [Finding(findings[0].text.value, findings[0].severity, findings[0].evidence)] else [])
         + Findings(findings[1..])
  }

  function FindingItems(findings: seq<Finding>): seq<Trimmable> {
    seq(|findings|, i requires 0 <= i < |findings| => FindingItem(i, findings[i]))
  }

  function GapItems(gaps: seq<Name>): seq<Trimmable> {
    seq(|gaps|, i requires 0 <= i < |gaps| => GapItem(i, gaps[i]))
  }

  function Impacts(devices: seq<ReportedDevice>): seq<DeviceImpact> {
    if devices == [] then []
    else (if devices[0].mac.Some? then [DeviceImpact(devices[0].mac.value, devices[0].severity, devices[0].evidence)] else [])
         + Impacts(devices[1..])
  }

  function KeptFindings(kept: seq<Trimmable>): seq<Finding> {
    if kept == [] then []
    else (if kept[0].FindingItem? then [kept[0].finding] else []) + KeptFindings(kept[1..])
  }

  function KeptGaps(kept: seq<Trimmable>): seq<Name> {
    if kept == [] then [] else (if kept[0].GapItem? then [kept[0].gap] else []) + KeptGaps(kept[1..])
  }

  /** The cited service-health ids, in order: what the bands rest on. */
  function Support(r: Report, registry: map<nat, Recorded>): set<nat> {
    set id | id in ClaimCited(r) && IsHealth(registry, id)
  }

  function LeastOf(ids: set<nat>): (least: nat)
    requires ids != {}
    ensures least in ids && forall id | id in ids :: least <= id
  {
    LeastExists(ids);
    var least :| least in ids && forall id | id in ids :: least <= id;
    least
  }

  lemma LeastExists(ids: set<nat>)
    requires ids != {}
    ensures exists least :: least in ids && forall id | id in ids :: least <= id
  {
    var x :| x in ids;
    var rest := ids - {x};
    if rest == {} {
      assert forall id | id in ids :: id == x || id in rest;
    } else {
      LeastExists(rest);
      var m :| m in rest && forall id | id in rest :: m <= id;
      var least := if x < m then x else m;
      assert forall id | id in ids :: id == x || id in rest;
      assert least in ids && forall id | id in ids :: least <= id;
    }
  }

  const TRIMMED_GAP: Name := Name("findings and gaps were not stored")

  /** One candidate conclusion: what is kept, what was counted, and the citations the bands still rest on. */
  function Reported(r: Report, registry: map<nat, Recorded>, kept: seq<Trimmable>, omitted: multiset<TrimCategory>)
    : AgentConclusion
  {
    var findings := KeptFindings(kept);
    var impacted := Impacts(r.devices);
    var cited := (set f, id | f in findings && id in f.evidence :: id)
                 + (set d, id | d in impacted && id in d.evidence :: id) + Ids(r.evidence);
    var support := Support(r, registry);
    AgentConclusion(
      true, None, Some(r.peak), Some(r.current), Some(r.confidence),
      r.evidence + (if support == {} || cited * support != {} then [] else [LeastOf(support)]),
      findings, impacted,
      KeptGaps(kept) + (if omitted == multiset{} then [] else [TRIMMED_GAP]))
  }

  predicate AllDevicesNamed(r: Report) {
    forall d | d in r.devices :: d.mac.Some?
  }

  lemma {:induction false} ImpactsKeep(devices: seq<ReportedDevice>)
    requires forall d | d in devices :: d.mac.Some?
    ensures |Impacts(devices)| == |devices|
    ensures forall i | 0 <= i < |devices| ::
              Impacts(devices)[i] == DeviceImpact(devices[i].mac.value, devices[i].severity, devices[i].evidence)
  {
    if devices != [] {
      assert devices[0] in devices;
      ImpactsKeep(devices[1..]);
    }
  }

  /** A finding that survives redaction is one the report made. */
  ghost predicate FromReport(findings: seq<Finding>, r: Report) {
    forall f | f in findings :: ReportMakes(r, f)
  }

  ghost predicate ReportMakes(r: Report, f: Finding) {
    exists g :: g in r.findings && g.evidence == f.evidence && g.severity == f.severity
  }

  lemma {:induction false} FindingsFromReport(findings: seq<ReportedFinding>, r: Report)
    requires forall g | g in findings :: g in r.findings
    ensures FromReport(Findings(findings), r)
  {
    if findings != [] {
      assert findings[0] in r.findings;
      FindingsFromReport(findings[1..], r);
    }
  }

  lemma {:induction false} KeptFromReport(kept: seq<Trimmable>, r: Report)
    requires forall t | t in kept && t.FindingItem? :: ReportMakes(r, t.finding)
    ensures FromReport(KeptFindings(kept), r)
  {
    if kept != [] {
      assert kept[0] in kept;
      KeptFromReport(kept[1..], r);
    }
  }

  /** A candidate conclusion cites nothing the report did not. */
  lemma CitesWithin(r: Report, registry: map<nat, Recorded>, kept: seq<Trimmable>, omitted: multiset<TrimCategory>)
    requires AllDevicesNamed(r) && forall t | t in kept && t.FindingItem? :: ReportMakes(r, t.finding)
    ensures Cited(Reported(r, registry, kept, omitted)) <= ClaimCited(r)
  {
    var a := Reported(r, registry, kept, omitted);
    KeptFromReport(kept, r);
    ImpactsKeep(r.devices);
    forall id | id in Cited(a)
      ensures id in ClaimCited(r)
    {
      if f :| f in a.findings && id in f.evidence {
        assert ReportMakes(r, f);
      } else if d :| d in a.devices && id in d.evidence {
        var i :| 0 <= i < |a.devices| && a.devices[i] == d;
        assert r.devices[i] in r.devices;
      }
    }
  }

  /** Whatever trimming keeps, the conclusion cites service-health evidence exactly when the report did. */
  lemma TrimmingKeepsSupport(r: Report, registry: map<nat, Recorded>, kept: seq<Trimmable>,
                             omitted: multiset<TrimCategory>)
    requires AllDevicesNamed(r) && forall t | t in kept && t.FindingItem? :: ReportMakes(r, t.finding)
    ensures (exists id | id in Cited(Reported(r, registry, kept, omitted)) :: IsHealth(registry, id))
       <==> CitesHealth(r, registry)
  {
    CitesWithin(r, registry, kept, omitted);
    var a := Reported(r, registry, kept, omitted);
    var support := Support(r, registry);
    if CitesHealth(r, registry) {
      var id :| id in ClaimCited(r) && IsHealth(registry, id);
      assert id in support;
      var cited := (set f, x | f in a.findings && x in f.evidence :: x)
                   + (set d, x | d in a.devices && x in d.evidence :: x) + Ids(r.evidence);
      if cited * support != {} {
        var x :| x in cited * support;
        assert x in Ids(r.evidence) ==> x in a.evidence;
        assert x in Cited(a) && IsHealth(registry, x);
      } else {
        var least := LeastOf(support);
        assert least in a.evidence && IsHealth(registry, least);
      }
    }
  }

  // Composition sees the same report.

  /** The evidence composition reads is what the registry recorded. */
  ghost predicate Registered(evidence: seq<EvidenceItem>, registry: map<nat, Recorded>) {
    && (forall item | item in evidence ::
          item.id in registry && registry[item.id].kind == item.kind && registry[item.id].citable == item.citable)
    && (forall id | id in registry :: exists item :: item in evidence && item.id == id)
  }

  lemma ContributesExactly(r: Report, registry: map<nat, Recorded>, evidence: seq<EvidenceItem>, visible: set<nat>,
                           kept: seq<Trimmable>, omitted: multiset<TrimCategory>)
    requires Registered(evidence, registry) && Citable(r, registry, visible) && AllDevicesNamed(r)
    requires forall t | t in kept && t.FindingItem? :: ReportMakes(r, t.finding)
    ensures Contributes(Some(Reported(r, registry, kept, omitted)), evidence) <==> CitesHealth(r, registry)
  {
    TrimmingKeepsSupport(r, registry, kept, omitted);
    CitesWithin(r, registry, kept, omitted);
    var a := Reported(r, registry, kept, omitted);
    if id :| id in Cited(a) && IsHealth(registry, id) {
      var item :| item in evidence && item.id == id;
      assert item.kind == ServiceHealth && item.citable;
    }
    if Contributes(Some(a), evidence) {
      var item :| item in evidence && item.kind == ServiceHealth && item.citable && item.id in Cited(a);
      assert IsHealth(registry, item.id);
    }
  }

  /** Trimming a report to its byte budget never changes the verdict's bands, its confidence, its sources or what it
      says of any device. */
  lemma TrimmingNeverChangesTheVerdict(i: Inputs, r: Report, registry: map<nat, Recorded>, visible: set<nat>,
                                       kept: seq<Trimmable>, omitted: multiset<TrimCategory>,
                                       other: seq<Trimmable>, dropped: multiset<TrimCategory>)
    requires Registered(i.evidence, registry) && Citable(r, registry, visible) && AllDevicesNamed(r)
    requires forall t | t in kept && t.FindingItem? :: ReportMakes(r, t.finding)
    requires forall t | t in other && t.FindingItem? :: ReportMakes(r, t.finding)
    ensures var one := i.(agent := Some(Reported(r, registry, kept, omitted)));
            var two := i.(agent := Some(Reported(r, registry, other, dropped)));
            && PublishedPeak(one) == PublishedPeak(two) && PublishedCurrent(one) == PublishedCurrent(two)
            && ConfidenceOf(one) == ConfidenceOf(two) && AllClaims(one) == AllClaims(two) && Sources(one) == Sources(two)
  {
    ContributesExactly(r, registry, i.evidence, visible, kept, omitted);
    ContributesExactly(r, registry, i.evidence, visible, other, dropped);
    var one := i.(agent := Some(Reported(r, registry, kept, omitted)));
    var two := i.(agent := Some(Reported(r, registry, other, dropped)));
    assert FloorInputs(one) == FloorInputs(two);
    var peak, current := PublishedPeak(one), PublishedCurrent(one);
    FilterAgree(FloorInputs(one), (f: FloorInput) => Decides(one, f, peak) || Decides(one, f, current),
                (f: FloorInput) => Decides(two, f, peak) || Decides(two, f, current));
  }

  /** However it was trimmed, a report raises confidence exactly when it cited service-health evidence and its peak is
      the published one. */
  lemma ReportRaisesConfidence(i: Inputs, r: Report, registry: map<nat, Recorded>, visible: set<nat>,
                               kept: seq<Trimmable>, omitted: multiset<TrimCategory>, v: Verdict)
    requires Registered(i.evidence, registry) && Citable(r, registry, visible) && AllDevicesNamed(r)
    requires forall t | t in kept && t.FindingItem? :: ReportMakes(r, t.finding)
    requires var composed := i.(agent := Some(Reported(r, registry, kept, omitted)));
             ValidInputs(composed) && Composed(v, composed)
    ensures v.confidence == Medium <==> CitesHealth(r, registry) && v.peak == r.peak
  {
    var composed := i.(agent := Some(Reported(r, registry, kept, omitted)));
    ContributesExactly(r, registry, i.evidence, visible, kept, omitted);
    ConfidenceNeedsConcurrence(composed, v);
  }

  /** An accepted report is a valid conclusion however it is trimmed, `none` is open only under complete coverage, and
      any claim that needs service-health evidence contributes. */
  lemma AcceptedReportHolds(r: Report, registry: map<nat, Recorded>, evidence: seq<EvidenceItem>, visible: set<nat>,
                            coverage: Coverage, kept: seq<Trimmable>, omitted: multiset<TrimCategory>)
    requires Check(r, registry, visible, coverage) == None && Registered(evidence, registry)
    requires forall t | t in kept && t.FindingItem? :: ReportMakes(r, t.finding)
    ensures ValidAgent(Reported(r, registry, kept, omitted))
    ensures r.peak == NoImpact ==> coverage == Complete
    ensures NeedsHealth(r) ==> Contributes(Some(Reported(r, registry, kept, omitted)), evidence)
  {
    assert AllDevicesNamed(r);
    ImpactsKeep(r.devices);
    forall d | d in Impacts(r.devices)
      ensures Rank(d.severity) <= Rank(r.peak)
    {
      var i :| 0 <= i < |r.devices| && Impacts(r.devices)[i] == d;
      assert r.devices[i] in r.devices;
    }
    ContributesExactly(r, registry, evidence, visible, kept, omitted);
  }

  lemma TrimTotal()
    ensures Total(TrimLeq)
  {
  }

  /** One candidate of the report for each choice of what to keep. */
  function Rebuilt(r: Report, registry: map<nat, Recorded>): (seq<Trimmable>, multiset<TrimCategory>) -> AgentConclusion {
    (kept: seq<Trimmable>, omitted: multiset<TrimCategory>) => Reported(r, registry, kept, omitted)
  }

  /** The accepted report within the conclusions budget: findings and gaps give way in priority order, the rest stays. */
  method Conclude(r: Report, registry: map<nat, Recorded>, budget: int, viewSize: AgentConclusion -> nat,
                  countsSize: multiset<TrimCategory> -> nat, size: Trimmable -> nat)
    returns (c: Result<AgentConclusion, BudgetError>, ghost kept: seq<Trimmable>, ghost omitted: multiset<TrimCategory>)
    ensures c.Ok? ==> viewSize(c.value) <= budget && c.value == Reported(r, registry, kept, omitted)
    ensures c.Ok? ==> forall t | t in kept && t.FindingItem? :: ReportMakes(r, t.finding)
    ensures c.Ok? ==> omitted == Categories(Trimmables(r), CategoryOf) - Categories(kept, CategoryOf)
                      && BoundedKeeps(kept, Trimmables(r), budget, TrimLeq, CategoryOf, Rebuilt(r, registry), viewSize,
                                      countsSize, size)
    ensures c.Err? <==> viewSize(Reported(r, registry, [], Categories(Trimmables(r), CategoryOf))) > budget
  {
    var items := Trimmables(r);
    var build := Rebuilt(r, registry);
    TrimTotal();
    ghost var packed, mask;
    c, kept, packed, mask := Bounded(items, budget, TrimLeq, CategoryOf, build, viewSize, countsSize, size);
    omitted := Categories(items, CategoryOf) - Categories(kept, CategoryOf);
    if c.Ok? {
      assert BoundedAs(kept, packed, mask, items, budget, TrimLeq, CategoryOf, build, viewSize, countsSize, size);
      ChosenFrom(Prioritized(items, TrimLeq), mask);
      SortedMembers(items, TrimLeq);
      TrimmablesFromReport(r);
      forall t | t in kept && t.FindingItem?
        ensures ReportMakes(r, t.finding)
      {
        assert t in packed.kept;
        assert t in items;
      }
    }
  }

  function Trimmables(r: Report): seq<Trimmable> {
    FindingItems(Findings(r.findings)) + GapItems(r.gaps)
  }

  lemma TrimmablesFromReport(r: Report)
    ensures forall t | t in Trimmables(r) && t.FindingItem? :: ReportMakes(r, t.finding)
  {
    FindingsFromReport(r.findings, r);
    forall t | t in Trimmables(r) && t.FindingItem?
      ensures ReportMakes(r, t.finding)
    {
      assert t in FindingItems(Findings(r.findings));
      assert t.finding in Findings(r.findings);
    }
  }

  // The prompt.

  datatype Family = FixedFamily | RuleFamily | McpFamily

  /** One recorded item as the prompt shows it. */
  datatype Shown = Shown(id: nat, family: Family)

  predicate Withholdable(s: Shown) {
    s.family != FixedFamily
  }

  function WithheldOrder(family: Family): nat {
    match family case McpFamily => 0 case RuleFamily => 1 case FixedFamily => 2
  }

  /** MCP payloads give way before rule payloads, the oldest first. */
  predicate WithheldLeq(a: Shown, b: Shown) {
    if a.family != b.family then WithheldOrder(a.family) < WithheldOrder(b.family) else a.id <= b.id
  }

  /** The items still shown once the first `n` candidates are withheld. */
  function Visible(evidence: seq<Shown>, candidates: seq<Shown>, n: nat): seq<Shown>
    requires n <= |candidates|
  {
    Filter(evidence, (s: Shown) => s !in candidates[..n])
  }

  /** Withhold the oldest MCP then rule payloads until the prompt fits its cap, or nothing is left to withhold. */
  method BuildPrompt(evidence: seq<Shown>, cap: int, size: (seq<Shown>, seq<Shown>) -> nat)
    returns (visible: seq<Shown>, withheld: seq<Shown>)
    ensures var candidates := Prioritized(Filter(evidence, Withholdable), WithheldLeq);
            && withheld <= candidates
            && visible == Visible(evidence, candidates, |withheld|)
            && (size(visible, withheld) <= cap || withheld == candidates)
            && forall n | 0 <= n < |withheld| :: size(Visible(evidence, candidates, n), candidates[..n]) > cap
    ensures forall s | s in evidence && !Withholdable(s) :: s in visible
    ensures forall s | s in evidence :: s in visible || s in withheld
  {
    var candidates := Prioritized(Filter(evidence, Withholdable), WithheldLeq);
    SortedMembers(Filter(evidence, Withholdable), WithheldLeq);
    FilterMembers(evidence, Withholdable);
    withheld := [];
    visible := Visible(evidence, candidates, 0);
    while size(visible, withheld) > cap && |withheld| < |candidates|
      invariant |withheld| <= |candidates| && withheld == candidates[..|withheld|]
      invariant visible == Visible(evidence, candidates, |withheld|)
      invariant forall n | 0 <= n < |withheld| :: size(Visible(evidence, candidates, n), candidates[..n]) > cap
      decreases |candidates| - |withheld|
    {
      Taking(candidates, |withheld|);
      withheld := withheld + [candidates[|withheld|]];
      visible := Visible(evidence, candidates, |withheld|);
    }
    FilterMembers(evidence, (s: Shown) => s !in candidates[..|withheld|]);
    Taken(candidates);
  }

  // The turn loop.

  const REPORT_ONLY_TURNS: nat := 3

  /** What the model or the attempt's bounds made of one turn. */
  datatype Answer =
    | DeadlinePassed
    | ProviderFailed
    | TurnFailed
    | NotAnAction
    | CallAction
    | CallExpired
    | ReportAction(report: Report)

  /** One turn: the answer, and the registry and the visible evidence it is judged against. */
  datatype Turn = Turn(answer: Answer, registry: map<nat, Recorded>, visible: set<nat>)

  datatype ActionKind = CallKind | ReportKind | InvalidKind

  /** One stored turn: what was asked, and whether it made a read or was accepted. */
  datatype Step = Step(turn: nat, kind: ActionKind, called: bool, accepted: bool)

  datatype Run = Run(report: Option<Report>, steps: seq<Step>)

  /** Every stored turn is numbered in order within the limit, and no call is made once only a report is accepted. */
  ghost predicate ValidSteps(steps: seq<Step>) {
    && |steps| <= MAX_MODEL_TURNS
    && (forall k | 0 <= k < |steps| :: steps[k].turn == k + 1)
    && (forall s | s in steps && s.called :: s.kind == CallKind && MAX_MODEL_TURNS - s.turn + 1 > REPORT_ONLY_TURNS)
    && (forall k | 0 <= k < |steps| && steps[k].accepted :: k == |steps| - 1 && steps[k].kind == ReportKind)
  }

  function Calls(steps: seq<Step>): nat {
    if steps == [] then 0 else Calls(steps[..|steps| - 1]) + (if steps[|steps| - 1].called then 1 else 0)
  }

  /** At most seven calls, one for each turn before the report-only ones. */
  lemma {:induction false} CallsBounded(steps: seq<Step>)
    requires ValidSteps(steps)
    ensures Calls(steps) <= |steps| && Calls(steps) <= MAX_MODEL_TURNS - REPORT_ONLY_TURNS
    ensures MAX_MODEL_TURNS - REPORT_ONLY_TURNS == MAX_MCP_CALLS
  {
    if steps != [] {
      var before := steps[..|steps| - 1];
      assert forall s | s in before :: s in steps;
      assert steps[|steps| - 1] in steps;
      CallsBounded(before);
    }
  }

  function StepFor(turn: Turn, number: nat, coverage: Coverage): Step {
    match turn.answer
    case ReportAction(report) =>
      Step(number, ReportKind, false, Check(report, turn.registry, turn.visible, coverage).None?)
    case CallAction => Step(number, CallKind, MAX_MODEL_TURNS - number + 1 > REPORT_ONLY_TURNS, false)
    case CallExpired => Step(number, CallKind, false, false)
    case _ => Step(number, InvalidKind, false, false)
  }

  /** The turn ends the run: nothing came of it, or its report was accepted. */
  predicate Ends(turn: Turn, coverage: Coverage) {
    match turn.answer
    case ReportAction(report) => Check(report, turn.registry, turn.visible, coverage).None?
    case DeadlinePassed | ProviderFailed | TurnFailed | CallExpired => true
    case _ => false
  }

  /** The stored turns are the first ones, as they were answered; none but the last can have ended the run. */
  ghost predicate StepsOf(steps: seq<Step>, turns: seq<Turn>, coverage: Coverage) {
    && |steps| <= |turns|
    && forall k | 0 <= k < |steps| ::
         !turns[k].answer.DeadlinePassed? && steps[k] == StepFor(turns[k], k + 1, coverage)
         && (k < |steps| - 1 ==> !Ends(turns[k], coverage))
  }

  /** The run stops at the first turn that ends it, which is stored unless the deadline passed before it. */
  ghost predicate StopsRightly(steps: seq<Step>, turns: seq<Turn>, coverage: Coverage)
    requires |steps| <= |turns|
  {
    || (steps != [] && Ends(turns[|steps| - 1], coverage))
    || |steps| == |turns|
    || turns[|steps|].answer.DeadlinePassed?
  }

  lemma StepsAreValid(steps: seq<Step>, turns: seq<Turn>, coverage: Coverage)
    requires |turns| == MAX_MODEL_TURNS && StepsOf(steps, turns, coverage)
    ensures ValidSteps(steps)
  {
    forall s | s in steps && s.called
      ensures s.kind == CallKind && MAX_MODEL_TURNS - s.turn + 1 > REPORT_ONLY_TURNS
    {
      var k :| 0 <= k < |steps| && steps[k] == s;
    }
  }

  /** Valid turns with no more calls than the attempt's budget. */
  ghost predicate WithinBounds(steps: seq<Step>) {
    ValidSteps(steps) && Calls(steps) <= MAX_MCP_CALLS
  }

  lemma StepsWithinBounds(steps: seq<Step>, turns: seq<Turn>, coverage: Coverage)
    requires |turns| == MAX_MODEL_TURNS && StepsOf(steps, turns, coverage)
    ensures WithinBounds(steps)
  {
    StepsAreValid(steps, turns, coverage);
    CallsBounded(steps);
  }

  lemma StepsSnoc(steps: seq<Step>, turns: seq<Turn>, coverage: Coverage)
    requires StepsOf(steps, turns, coverage) && |steps| < |turns|
    requires steps != [] ==> !Ends(turns[|steps| - 1], coverage)
    requires !turns[|steps|].answer.DeadlinePassed?
    ensures StepsOf(steps + [StepFor(turns[|steps|], |steps| + 1, coverage)], turns, coverage)
  {
  }

  ghost predicate NoneAccepted(steps: seq<Step>) {
    forall s | s in steps :: !s.accepted
  }

  lemma NoneAcceptedSnoc(steps: seq<Step>, step: Step)
    requires NoneAccepted(steps)
    ensures NoneAccepted(steps + [step]) <==> !step.accepted
  {
    assert step in steps + [step];
    assert forall s :: s in steps + [step] <==> s in steps || s == step;
  }

  /** A turn is over without a report once the deadline passed or it failed. */
  predicate FailsTurn(answer: Answer) {
    answer.ProviderFailed? || answer.TurnFailed? || answer.CallExpired?
  }

  lemma EndsExactly(turn: Turn, number: nat, coverage: Coverage)
    ensures Ends(turn, coverage)
       <==> turn.answer.DeadlinePassed? || FailsTurn(turn.answer) || StepFor(turn, number, coverage).accepted
    ensures StepFor(turn, number, coverage).accepted
        ==> turn.answer.ReportAction?
            && Check(turn.answer.report, turn.registry, turn.visible, coverage) == None
    ensures FailsTurn(turn.answer) ==> !StepFor(turn, number, coverage).accepted
  {
  }

  /** What a run of the agent comes to: the turns answered up to the first that ended it, and the report of the last if
      that one was accepted. */
  ghost predicate RunOf(run: Run, turns: seq<Turn>, coverage: Coverage) {
    && StepsOf(run.steps, turns, coverage) && StopsRightly(run.steps, turns, coverage)
    && (run.report.None? <==> NoneAccepted(run.steps))
    && (run.report.Some?
        ==> run.steps != []
            && var last := turns[|run.steps| - 1];
               last.answer == ReportAction(run.report.value)
               && Check(run.report.value, last.registry, last.visible, coverage) == None)
  }

  /** The run goes on, and nothing in it has ended it yet. */
  ghost predicate Underway(steps: seq<Step>, turns: seq<Turn>, coverage: Coverage) {
    && StepsOf(steps, turns, coverage) && NoneAccepted(steps)
    && (steps != [] ==> !Ends(turns[|steps| - 1], coverage))
  }

  /** One more turn fails the run, reports, or leaves it under way. */
  lemma TurnTaken(steps: seq<Step>, turns: seq<Turn>, coverage: Coverage)
    requires Underway(steps, turns, coverage) && |steps| < |turns| && !turns[|steps|].answer.DeadlinePassed?
    ensures var turn := turns[|steps|];
            var step := StepFor(turn, |steps| + 1, coverage);
            var after := steps + [step];
            if FailsTurn(turn.answer) then RunOf(Run(None, after), turns, coverage)
            else if step.accepted
            then turn.answer.ReportAction? && RunOf(Run(Some(turn.answer.report), after), turns, coverage)
            else Underway(after, turns, coverage)
  {
    StepsSnoc(steps, turns, coverage);
    NoneAcceptedSnoc(steps, StepFor(turns[|steps|], |steps| + 1, coverage));
    EndsExactly(turns[|steps|], |steps| + 1, coverage);
  }

  /** Take turns until one ends the run or none is left. */
  method TakeTurns(turns: seq<Turn>, coverage: Coverage) returns (run: Run)
    requires |turns| == MAX_MODEL_TURNS
    ensures RunOf(run, turns, coverage)
  {
    var steps: seq<Step> := [];
    for number := 1 to MAX_MODEL_TURNS + 1
      invariant |steps| == number - 1 && Underway(steps, turns, coverage)
    {
      var turn := turns[number - 1];
      if turn.answer.DeadlinePassed? {
        return Run(None, steps);
      }
      TurnTaken(steps, turns, coverage);
      var step := StepFor(turn, number, coverage);
      steps := steps + [step];
      if FailsTurn(turn.answer) {
        return Run(None, steps);
      }
      if step.accepted {
        return Run(Some(turn.answer.report), steps);
      }
    }
    return Run(None, steps);
  }

  /** Run the agent until it reports, fails, or runs out of turns, whatever it answers, within the attempt's calls. */
  method RunAgent(turns: seq<Turn>, coverage: Coverage) returns (run: Run)
    requires |turns| == MAX_MODEL_TURNS
    ensures RunOf(run, turns, coverage) && WithinBounds(run.steps)
  {
    run := TakeTurns(turns, coverage);
    StepsWithinBounds(run.steps, turns, coverage);
  }

  // From the turns to the verdict.

  /** A conclusion of this report: what it keeps of the findings and gaps, the report made. */
  ghost predicate ConcludedAs(c: AgentConclusion, r: Report, registry: map<nat, Recorded>) {
    exists kept, omitted :: KeptOf(c, r, registry, kept, omitted)
  }

  ghost predicate KeptOf(c: AgentConclusion, r: Report, registry: map<nat, Recorded>, kept: seq<Trimmable>,
                         omitted: multiset<TrimCategory>)
  {
    c == Reported(r, registry, kept, omitted) && forall t | t in kept && t.FindingItem? :: ReportMakes(r, t.finding)
  }

  /** The registry the last turn taken was judged against. */
  function LastRegistry(run: Run, turns: seq<Turn>): map<nat, Recorded>
    requires 0 < |run.steps| <= |turns|
  {
    turns[|run.steps| - 1].registry
  }

  /** The whole run of the agent, up to the verdict: whatever turns it took and whatever byte budget its report was
      concluded in, the report the run accepted composes to one verdict: the same bands, confidence, sources and claims
      on devices. A report of a warning is published at no less, and one of no impact only under complete coverage. */
  lemma ByteBudgetNeverChangesTheVerdict(run: Run, turns: seq<Turn>, i: Inputs, one: AgentConclusion,
                                         two: AgentConclusion, v: Verdict, w: Verdict)
    requires RunOf(run, turns, i.coverage) && run.report.Some? && ValidInputs(i.(agent := None))
    requires Registered(i.evidence, LastRegistry(run, turns))
    requires ConcludedAs(one, run.report.value, LastRegistry(run, turns))
    requires ConcludedAs(two, run.report.value, LastRegistry(run, turns))
    requires Composed(v, i.(agent := Some(one))) && Composed(w, i.(agent := Some(two)))
    ensures ValidInputs(i.(agent := Some(one))) && ValidInputs(i.(agent := Some(two)))
    ensures v.peak == w.peak && v.current == w.current && v.recovery == w.recovery && v.confidence == w.confidence
    ensures v.coverage == w.coverage && v.sources == w.sources
    ensures AllClaims(i.(agent := Some(one))) == AllClaims(i.(agent := Some(two)))
    ensures Rank(run.report.value.peak) >= Rank(Warning) ==> Rank(v.peak) >= Rank(run.report.value.peak)
    ensures run.report.value.peak == NoImpact ==> i.coverage == Complete
  {
    var last, r := turns[|run.steps| - 1], run.report.value;
    var kept, omitted :| KeptOf(one, r, last.registry, kept, omitted);
    var other, dropped :| KeptOf(two, r, last.registry, other, dropped);
    AcceptedReportHolds(r, last.registry, i.evidence, last.visible, i.coverage, kept, omitted);
    AcceptedReportHolds(r, last.registry, i.evidence, last.visible, i.coverage, other, dropped);
    TrimmingNeverChangesTheVerdict(i, r, last.registry, last.visible, kept, omitted, other, dropped);
    if Rank(r.peak) >= Rank(Warning) {
      PublishedPeakExactly(i.(agent := Some(one)));
      ContributesMeans(i.(agent := Some(one)));
      assert StatesPeak(i.(agent := Some(one)), r.peak);
    }
  }


  // Which reports are accepted.

  /** The id is cited: by the report itself, a finding or a device. */
  ghost predicate Cites(r: Report, id: nat) {
    || id in r.evidence
    || (exists f :: f in r.findings && id in f.evidence)
    || (exists d :: d in r.devices && id in d.evidence)
  }

  /** A report conforms: its bands are in order, it cites only what was read, can be cited and was shown; it rests a
      warning, a clean `none` and medium confidence on service health, every warning finding on something, and every
      device on an item that names it; and it claims no impact only under complete coverage. */
  ghost predicate Conforms(r: Report, registry: map<nat, Recorded>, visible: set<nat>, coverage: Coverage) {
    && Rank(r.current) <= Rank(r.peak) && (forall d | d in r.devices :: Rank(d.severity) <= Rank(r.peak))
    && (forall id | Cites(r, id) :: id in registry && registry[id].citable && id in visible)
    && (r.peak == NoImpact ==> coverage == Complete)
    && (r.peak in {NoImpact, Warning, Critical} || r.confidence == Medium ==>
          exists id :: Cites(r, id) && id in registry && registry[id].kind == ServiceHealth)
    && (forall f | f in r.findings && f.severity in {Warning, Critical} :: f.evidence != [])
    && (forall d | d in r.devices ::
          d.mac.Some? && exists id :: id in d.evidence && id in registry && d.mac.value in registry[id].names)
  }

  lemma CitedExactly(r: Report, id: nat)
    ensures id in ClaimCited(r) <==> Cites(r, id)
  {
  }

  lemma CitationsExactly(r: Report, registry: map<nat, Recorded>, visible: set<nat>)
    ensures Citable(r, registry, visible)
       <==> forall id | Cites(r, id) :: id in registry && registry[id].citable && id in visible
    ensures CitesHealth(r, registry)
       <==> exists id :: Cites(r, id) && id in registry && registry[id].kind == ServiceHealth
  {
    forall id
      ensures id in ClaimCited(r) <==> Cites(r, id)
    {
      CitedExactly(r, id);
    }
    if CitesHealth(r, registry) {
      var id :| id in ClaimCited(r) && IsHealth(registry, id);
      assert Cites(r, id);
    }
  }

  /** Exactly the reports that conform are accepted. */
  lemma AcceptedExactly(r: Report, registry: map<nat, Recorded>, visible: set<nat>, coverage: Coverage)
    ensures Check(r, registry, visible, coverage) == None <==> Conforms(r, registry, visible, coverage)
  {
    CitationsExactly(r, registry, visible);
    SupportExactly(r, registry);
  }

  lemma SupportExactly(r: Report, registry: map<nat, Recorded>)
    ensures NeedsHealth(r) <==> r.peak in {NoImpact, Warning, Critical} || r.confidence == Medium
    ensures (forall f | f in r.findings && Rank(f.severity) >= Rank(Warning) :: f.evidence != [])
       <==> forall f | f in r.findings && f.severity in {Warning, Critical} :: f.evidence != []
    ensures (exists d | d in r.devices :: !DeviceNamed(d, registry))
       <==> !forall d | d in r.devices ::
               d.mac.Some? && exists id :: id in d.evidence && id in registry && d.mac.value in registry[id].names
  {
  }
}
