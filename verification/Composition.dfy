/** Verdict composition: the one function that turns separate conclusions into one verdict. */
module Composition {
  import opened Contracts
  import opened Ordering
  import opened Evidence
  import opened Conclusions

  datatype EvidenceKind = ServiceHealth | DeploymentEvidence | ConfigurationEvidence | ReferenceEvidence

  /** One evidence item as composition and the agent's checks read it. */
  datatype EvidenceItem = EvidenceItem(id: nat, kind: EvidenceKind, citable: bool)

  /** One targeted device as a deterministic replay measured it. */
  datatype DeviceSeverity = DeviceSeverity(mac: Name, site: Name, peak: Band, current: Band)

  datatype RuleConclusion = RuleConclusion(plugin: Name, conclusion: Conclusion)

  datatype Inputs = Inputs(
    coverage: Coverage,
    monitoring: Option<Conclusion>,
    deployment: Option<Conclusion>,
    rules: seq<RuleConclusion>,
    agent: Option<AgentConclusion>,
    evidence: seq<EvidenceItem>,
    devices: seq<DeviceSeverity>)

  predicate ValidInputs(i: Inputs) {
    && (i.monitoring.Some? ==> ValidConclusion(i.monitoring.value))
    && (i.deployment.Some? ==> ValidConclusion(i.deployment.value))
    && (forall r | r in i.rules :: ValidConclusion(r.conclusion))
    && (i.agent.Some? ==> ValidAgent(i.agent.value))
    && (forall d | d in i.devices :: Ordered(d.peak, d.current))
  }

  // Rule 1 and 2: the base and the deterministic floor.

  function Base(coverage: Coverage): Band {
    if coverage == Complete then NoImpact else Info
  }

  /** A floor counts warning and critical alone. */
  function AboveInfo(band: Band): Band {
    if Rank(band) >= Rank(Warning) then band else NoImpact
  }

  function AtMost(band: Band, ceiling: Band): Band {
    if Rank(band) <= Rank(ceiling) then band else ceiling
  }

  function Peaks(devices: seq<DeviceSeverity>): seq<Band> {
    if devices == [] then [] else [devices[0].peak] + Peaks(devices[1..])
  }

  function Currents(devices: seq<DeviceSeverity>): seq<Band> {
    if devices == [] then [] else [devices[0].current] + Currents(devices[1..])
  }

  /** One floor input under its verdict source name. */
  datatype FloorInput = FloorInput(source: Source, peak: Band, current: Band)

  /** Monitoring with its own devices folded back in. */
  function MonitoringInput(i: Inputs): seq<FloorInput> {
    if i.monitoring.None? then []
    else
      var m := i.monitoring.value;
      [if i.devices == [] then FloorInput(MonitoringSource, m.peak, m.current)
       else FloorInput(MonitoringSource, Worse(m.peak, Worst(Peaks(i.devices))),
                       Worse(m.current, Worst(Currents(i.devices))))]
  }

  function RuleInputs(rules: seq<RuleConclusion>): seq<FloorInput> {
    if rules == [] then []
    else [FloorInput(RuleSource(rules[0].plugin), rules[0].conclusion.peak, rules[0].conclusion.current)]
         + RuleInputs(rules[1..])
  }

  predicate PluginLeq(a: RuleConclusion, b: RuleConclusion) {
    NameLeq(a.plugin, b.plugin)
  }

  /** The deterministic sources: monitoring, deployment and the plug-ins by id. */
  function FloorInputs(i: Inputs): seq<FloorInput> {
    MonitoringInput(i)
    + (if i.deployment.None? then []
       else [FloorInput(DeploymentSource, i.deployment.value.peak, i.deployment.value.current)])
    + RuleInputs(Prioritized(i.rules, PluginLeq))
  }

  function FloorPeaks(inputs: seq<FloorInput>): seq<Band> {
    if inputs == [] then [] else [AboveInfo(inputs[0].peak)] + FloorPeaks(inputs[1..])
  }

  function FloorCurrents(inputs: seq<FloorInput>): seq<Band> {
    if inputs == [] then [] else [AboveInfo(inputs[0].current)] + FloorCurrents(inputs[1..])
  }

  function FloorPeak(i: Inputs): Band {
    Worst(FloorPeaks(FloorInputs(i)) + [AboveInfo(Worst(Peaks(i.devices)))])
  }

  function FloorCurrent(i: Inputs): Band {
    Worst(FloorCurrents(FloorInputs(i)) + [AboveInfo(Worst(Currents(i.devices)))])
  }

  // Rule 3: what an accepted agent report adds.

  function Ids(ids: seq<nat>): set<nat> {
    set id | id in ids
  }

  /** Every evidence id a report cites, from the report itself, its findings and its devices. */
  function Cited(agent: AgentConclusion): set<nat> {
    Ids(agent.evidence) + (set f, id | f in agent.findings && id in f.evidence :: id)
    + (set d, id | d in agent.devices && id in d.evidence :: id)
  }

  /** It contributes only if it concluded and cited a citable service-health item. */
  predicate Contributes(agent: Option<AgentConclusion>, evidence: seq<EvidenceItem>) {
    && agent.Some? && agent.value.concluded
    && exists item | item in evidence :: item.kind == ServiceHealth && item.citable && item.id in Cited(agent.value)
  }

  function ContributedPeak(i: Inputs): Band {
    if Contributes(i.agent, i.evidence) && i.agent.value.peak.Some? then i.agent.value.peak.value else NoImpact
  }

  function ContributedCurrent(i: Inputs): Band {
    if Contributes(i.agent, i.evidence) && i.agent.value.current.Some? then i.agent.value.current.value else NoImpact
  }

  function PublishedPeak(i: Inputs): Band {
    Worst([Base(i.coverage), FloorPeak(i), ContributedPeak(i)])
  }

  function PublishedCurrent(i: Inputs): Band {
    Worst([Base(i.coverage), FloorCurrent(i), ContributedCurrent(i)])
  }

  // The impacted devices.

  /** One severity a source states for a device, with that source's current. */
  datatype Claim = Claim(mac: Name, severity: Band, sourceCurrent: Band)

  function ClaimsOf(devices: seq<DeviceImpact>, current: Band): seq<Claim> {
    if devices == [] then [] else [Claim(devices[0].mac, devices[0].severity, current)] + ClaimsOf(devices[1..], current)
  }

  function ConclusionClaims(c: Option<Conclusion>): seq<Claim> {
    if c.None? then [] else ClaimsOf(c.value.devices, c.value.current)
  }

  function RuleClaims(rules: seq<RuleConclusion>): seq<Claim> {
    if rules == [] then [] else ClaimsOf(rules[0].conclusion.devices, rules[0].conclusion.current) + RuleClaims(rules[1..])
  }

  function AgentClaims(i: Inputs): seq<Claim> {
    if Contributes(i.agent, i.evidence)
    then ClaimsOf(i.agent.value.devices, if i.agent.value.current.Some? then i.agent.value.current.value else NoImpact)
    else []
  }

  /** Every severity any source states, in source order. */
  function AllClaims(i: Inputs): seq<Claim> {
    ConclusionClaims(i.monitoring) + ConclusionClaims(i.deployment) + RuleClaims(Prioritized(i.rules, PluginLeq))
    + AgentClaims(i)
  }

  datatype Bands = Bands(peak: Band, current: Band)

  /** The direct definition of a device's bands: its own, and every claim about it, capped by the claim's source. */
  function BandsFor(row: DeviceSeverity, claims: seq<Claim>): Bands {
    if claims == [] then Bands(row.peak, row.current)
    else
      var before := BandsFor(row, claims[..|claims| - 1]);
      var c := claims[|claims| - 1];
      if c.mac != row.mac then before
      else Bands(Worse(before.peak, c.severity), Worse(before.current, AtMost(c.severity, c.sourceCurrent)))
  }

  predicate Reaches(b: Bands, c: Claim) {
    Rank(c.severity) <= Rank(b.peak) && Rank(AtMost(c.severity, c.sourceCurrent)) <= Rank(b.current)
  }

  /** A device's bands are the worst of its own and of every claim about it, a claim's current capped by its source's. */
  lemma {:induction false} BandsForExactly(row: DeviceSeverity, claims: seq<Claim>)
    ensures var b := BandsFor(row, claims);
            && Rank(row.peak) <= Rank(b.peak) && Rank(row.current) <= Rank(b.current)
            && (forall c | c in claims && c.mac == row.mac :: Reaches(b, c))
            && (b.peak == row.peak || exists c :: c in claims && c.mac == row.mac && c.severity == b.peak)
            && (b.current == row.current
                || exists c :: c in claims && c.mac == row.mac && AtMost(c.severity, c.sourceCurrent) == b.current)
  {
    if claims != [] {
      var before, last := claims[..|claims| - 1], claims[|claims| - 1];
      BandsForExactly(row, before);
      assert claims == before + [last];
      assert forall c :: c in claims <==> c in before || c == last;
    }
  }

  /** `known`: the last row of each device. */
  function Known(devices: seq<DeviceSeverity>): map<Name, DeviceSeverity> {
    if devices == [] then map[]
    else Known(devices[..|devices| - 1])[devices[|devices| - 1].mac := devices[|devices| - 1]]
  }

  lemma {:induction false} KnownRows(devices: seq<DeviceSeverity>)
    ensures forall mac | mac in Known(devices) :: Known(devices)[mac] in devices && Known(devices)[mac].mac == mac
    ensures forall d | d in devices :: d.mac in Known(devices)
  {
    if devices != [] {
      var before := devices[..|devices| - 1];
      KnownRows(before);
      assert devices == before + [devices[|devices| - 1]];
    }
  }

  ghost predicate BandsAre(bands: map<Name, Bands>, known: map<Name, DeviceSeverity>, claims: seq<Claim>) {
    && bands.Keys == known.Keys
    && forall mac | mac in bands :: bands[mac] == BandsFor(known[mac], claims)
  }

  method DeviceBands(known: map<Name, DeviceSeverity>, claims: seq<Claim>)
    returns (bands: map<Name, Bands>, unidentified: set<Name>)
    requires forall mac | mac in known :: known[mac].mac == mac
    ensures BandsAre(bands, known, claims)
    ensures unidentified == set c | c in claims && c.mac !in known :: c.mac
  {
    bands := map mac | mac in known :: Bands(known[mac].peak, known[mac].current);
    unidentified := {};
    for i := 0 to |claims|
      invariant BandsAre(bands, known, claims[..i])
      invariant unidentified == set c | c in claims[..i] && c.mac !in known :: c.mac
    {
      var c := claims[i];
      Taking(claims, i);
      assert claims[..i + 1][..i] == claims[..i];
      assert forall x :: x in claims[..i + 1] <==> x in claims[..i] || x == c;
      if c.mac !in known {
        unidentified := unidentified + {c.mac};
      } else {
        var b := bands[c.mac];
        bands := bands[c.mac := Bands(Worse(b.peak, c.severity), Worse(b.current, AtMost(c.severity, c.sourceCurrent)))];
      }
    }
    Taken(claims);
  }

  /** Worst first, and by MAC. */
  predicate ListedLeq(a: CompactDevice, b: CompactDevice) {
    if a.peak != b.peak then Rank(a.peak) > Rank(b.peak)
    else if a.current != b.current then Rank(a.current) > Rank(b.current)
    else NameLeq(a.mac, b.mac)
  }

  lemma ListedTotal()
    ensures Total(ListedLeq)
  {
    NameOrder();
    forall a: CompactDevice, b: CompactDevice
      ensures ListedLeq(a, b) || ListedLeq(b, a)
    {
      if a.peak != b.peak && Rank(a.peak) == Rank(b.peak) {
        RankInjective(a.peak, b.peak);
      }
      if a.current != b.current && Rank(a.current) == Rank(b.current) {
        RankInjective(a.current, b.current);
      }
    }
  }

  datatype Listing = Listing(items: seq<CompactDevice>, omitted: multiset<Band>)

  /** A device's row on the verdict. */
  function Row(known: DeviceSeverity, b: Bands): CompactDevice {
    CompactDevice(known.mac, known.site, b.peak, b.current)
  }

  /** Exactly the devices at or above warning, each once. */
  ghost predicate RowsAre(rows: seq<CompactDevice>, bands: map<Name, Bands>, known: map<Name, DeviceSeverity>) {
    && bands.Keys == known.Keys
    && (forall r | r in rows ::
          r.mac in bands && r == Row(known[r.mac], bands[r.mac]) && Rank(bands[r.mac].peak) >= Rank(Warning))
    && (forall mac | mac in bands && Rank(bands[mac].peak) >= Rank(Warning) :: Row(known[mac], bands[mac]) in rows)
    && (forall i, j | 0 <= i < j < |rows| :: rows[i].mac != rows[j].mac)
  }

  method ListedRows(bands: map<Name, Bands>, known: map<Name, DeviceSeverity>) returns (rows: seq<CompactDevice>)
    requires bands.Keys == known.Keys && forall mac | mac in known :: known[mac].mac == mac
    ensures RowsAre(rows, bands, known)
  {
    rows := [];
    var left := bands.Keys;
    while left != {}
      invariant left <= bands.Keys
      invariant forall r | r in rows ::
                  r.mac in bands && r == Row(known[r.mac], bands[r.mac]) && Rank(bands[r.mac].peak) >= Rank(Warning)
      invariant forall mac | mac in bands.Keys - left && Rank(bands[mac].peak) >= Rank(Warning) ::
                  Row(known[mac], bands[mac]) in rows
      invariant forall r | r in rows :: r.mac !in left
      invariant forall i, j | 0 <= i < j < |rows| :: rows[i].mac != rows[j].mac
      decreases |left|
    {
      var mac :| mac in left;
      left := left - {mac};
      if Rank(bands[mac].peak) >= Rank(Warning) {
        rows := rows + [Row(known[mac], bands[mac])];
      }
    }
  }

  // Rule 7: the sources that set the published bands.

  predicate Sets(input: FloorInput, band: Band) {
    band != NoImpact && (band == AboveInfo(input.peak) || band == AboveInfo(input.current))
  }

  /** The inputs a band names: all of them when the base decides it, else those that reached it. */
  predicate Decides(i: Inputs, input: FloorInput, band: Band) {
    band == Base(i.coverage) || Sets(input, band)
  }

  predicate AgentDecides(i: Inputs, band: Band) {
    && band != Base(i.coverage) && Contributes(i.agent, i.evidence)
    && (band == ContributedPeak(i) || band == ContributedCurrent(i))
  }

  function SourceNames(inputs: seq<FloorInput>): seq<Source> {
    if inputs == [] then [] else [inputs[0].source] + SourceNames(inputs[1..])
  }

  function Sources(i: Inputs): seq<Source> {
    var peak, current := PublishedPeak(i), PublishedCurrent(i);
    SourceNames(Filter(FloorInputs(i), (f: FloorInput) => Decides(i, f, peak) || Decides(i, f, current)))
    + (if AgentDecides(i, peak) || AgentDecides(i, current) then [AgentSource] else [])
  }

  // Composition.

  function ConfidenceOf(i: Inputs): Confidence {
    if Contributes(i.agent, i.evidence) && ContributedPeak(i) == PublishedPeak(i) then Medium else Low
  }

  function PeakOf(d: CompactDevice): Band {
    d.peak
  }

  function NewListing(items: seq<CompactDevice>, omitted: multiset<Band>): Listing {
    Listing(items, omitted)
  }

  /** Devices at warning or above within the impacted-devices budget, the rest counted; sizes are any functions. */
  method Compose(i: Inputs, budget: int, viewSize: Listing -> nat, countsSize: multiset<Band> -> nat,
                 size: CompactDevice -> nat)
    returns (r: Result<Verdict, BudgetError>, ghost rows: seq<CompactDevice>, ghost bands: map<Name, Bands>)
    requires ValidInputs(i)
    ensures BandsAre(bands, Known(i.devices), AllClaims(i)) && RowsAre(rows, bands, Known(i.devices))
    ensures r.Err? <==> viewSize(Listing([], Categories(rows, PeakOf))) > budget
    ensures r.Ok? ==> Composed(r.value, i) && ValidVerdict(r.value)
    ensures r.Ok? ==> BoundedKeeps(r.value.devices, rows, budget, ListedLeq, PeakOf, NewListing, viewSize, countsSize, size)
    ensures r.Ok? ==> (forall d | d in r.value.devices :: d in rows)
                      && |r.value.devices| + r.value.devicesOmitted == |rows|
  {
    var known := Known(i.devices);
    KnownRows(i.devices);
    var all, unidentified := DeviceBands(known, AllClaims(i));
    var listed := ListedRows(all, known);
    bands, rows := all, listed;
    ListedTotal();
    var view, kept, packed, mask := Bounded(listed, budget, ListedLeq, PeakOf, NewListing, viewSize, countsSize, size);
    if view.Err? {
      return Err(view.error), rows, bands;
    }
    assert BoundedAs(kept, packed, mask, listed, budget, ListedLeq, PeakOf, NewListing, viewSize, countsSize, size);
    ListingCounts(view.value, kept, listed, packed, mask, budget, viewSize, countsSize, size);
    var peak, current := PublishedPeak(i), PublishedCurrent(i);
    var verdict := Verdict(peak, current, RecoveryFor(peak, current), ConfidenceOf(i), i.coverage, Sources(i),
                           view.value.items, |view.value.omitted|);
    BandsOrdered(i);
    RowsWithin(i, rows, bands);
    r := Ok(verdict);
  }

  /** The verdict's bands, recovery, confidence, coverage and sources are these functions of the inputs. */
  ghost predicate Composed(v: Verdict, i: Inputs) {
    && v.peak == PublishedPeak(i) && v.current == PublishedCurrent(i)
    && v.recovery == RecoveryFor(v.peak, v.current)
    && v.confidence == ConfidenceOf(i) && v.coverage == i.coverage && v.sources == Sources(i)
  }

  // What a kept list and its counts add up to.

  lemma {:induction false} CategoriesSize<T, C>(s: seq<T>, category: T -> C)
    ensures |Categories(s, category)| == |s|
  {
    if s != [] {
      CategoriesSize(s[1..], category);
    }
  }

  lemma ChosenFrom<T>(s: seq<T>, mask: seq<bool>)
    requires |s| == |mask|
    ensures forall x | x in Chosen(s, mask) :: x in s
  {
    if s != [] {
      ChosenFrom(s[1..], mask[1..]);
      assert forall x :: x in s <==> x == s[0] || x in s[1..];
    }
  }

  lemma RestSize<C>(all: multiset<C>, some: multiset<C>)
    requires some <= all
    ensures |all - some| + |some| == |all|
  {
    assert (all - some) + some == all;
  }

  lemma ListingCounts(view: Listing, kept: seq<CompactDevice>, rows: seq<CompactDevice>,
                      packed: Packed<CompactDevice, Band>, mask: seq<bool>, budget: int, viewSize: Listing -> nat,
                      countsSize: multiset<Band> -> nat, size: CompactDevice -> nat)
    requires ViewOf(view, kept, rows, PeakOf, NewListing)
    requires BoundedAs(kept, packed, mask, rows, budget, ListedLeq, PeakOf, NewListing, viewSize, countsSize, size)
    ensures view.items == kept && (forall d | d in kept :: d in rows)
    ensures |view.items| + |view.omitted| == |rows|
  {
    ChosenFrom(Prioritized(rows, ListedLeq), mask);
    SortedMembers(rows, ListedLeq);
    CategoriesSize(kept, PeakOf);
    CategoriesSize(rows, PeakOf);
    RestSize(Categories(rows, PeakOf), Categories(kept, PeakOf));
  }

  // Bands.

  lemma {:induction false} PeaksBoundCurrents(devices: seq<DeviceSeverity>)
    requires forall d | d in devices :: Ordered(d.peak, d.current)
    ensures Rank(Worst(Currents(devices))) <= Rank(Worst(Peaks(devices)))
    ensures forall d | d in devices :: Rank(d.peak) <= Rank(Worst(Peaks(devices)))
  {
    if devices != [] {
      PeaksBoundCurrents(devices[1..]);
      assert devices[0] in devices;
      assert Currents(devices)[1..] == Currents(devices[1..]) && Peaks(devices)[1..] == Peaks(devices[1..]);
      assert forall d :: d in devices <==> d == devices[0] || d in devices[1..];
    }
  }

  ghost predicate OrderedInputs(inputs: seq<FloorInput>) {
    forall f | f in inputs :: Ordered(f.peak, f.current)
  }

  lemma {:induction false} RuleInputsOrdered(rules: seq<RuleConclusion>)
    requires forall r | r in rules :: ValidConclusion(r.conclusion)
    ensures OrderedInputs(RuleInputs(rules))
  {
    if rules != [] {
      assert rules[0] in rules;
      RuleInputsOrdered(rules[1..]);
    }
  }

  lemma FloorInputsOrdered(i: Inputs)
    requires ValidInputs(i)
    ensures OrderedInputs(FloorInputs(i))
  {
    PeaksBoundCurrents(i.devices);
    SortedMembers(i.rules, PluginLeq);
    RuleInputsOrdered(Prioritized(i.rules, PluginLeq));
  }

  lemma {:induction false} FloorsOrdered(inputs: seq<FloorInput>)
    requires OrderedInputs(inputs)
    ensures Rank(Worst(FloorCurrents(inputs))) <= Rank(Worst(FloorPeaks(inputs)))
  {
    if inputs != [] {
      assert inputs[0] in inputs;
      FloorsOrdered(inputs[1..]);
      assert FloorCurrents(inputs)[1..] == FloorCurrents(inputs[1..]) && FloorPeaks(inputs)[1..] == FloorPeaks(inputs[1..]);
    }
  }

  /** Worst of three, as its members bound it. */
  lemma WorstOfThree(a: Band, b: Band, c: Band)
    ensures var w := Worst([a, b, c]);
            && Rank(a) <= Rank(w) && Rank(b) <= Rank(w) && Rank(c) <= Rank(w)
            && (w == a || w == b || w == c)
  {
    WorstBounds([a, b, c]);
    assert [a, b, c][0] == a && [a, b, c][1] == b && [a, b, c][2] == c;
  }

  lemma FloorOrdered(i: Inputs)
    requires ValidInputs(i)
    ensures Rank(FloorCurrent(i)) <= Rank(FloorPeak(i))
  {
    FloorInputsOrdered(i);
    PeaksBoundCurrents(i.devices);
    FloorsOrdered(FloorInputs(i));
    WorstSnoc(FloorPeaks(FloorInputs(i)), AboveInfo(Worst(Peaks(i.devices))));
    WorstSnoc(FloorCurrents(FloorInputs(i)), AboveInfo(Worst(Currents(i.devices))));
  }

  /** The published bands meet the published invariant for any valid inputs. */
  lemma BandsOrdered(i: Inputs)
    requires ValidInputs(i)
    ensures ValidPublished(PublishedPeak(i), PublishedCurrent(i), RecoveryFor(PublishedPeak(i), PublishedCurrent(i)),
                           i.coverage)
  {
    FloorOrdered(i);
    WorstOfThree(Base(i.coverage), FloorPeak(i), ContributedPeak(i));
    WorstOfThree(Base(i.coverage), FloorCurrent(i), ContributedCurrent(i));
  }

  // Every listed device is within the verdict.

  /** The claim's severity is within its source's peak, and that peak within the verdict once it is a warning. */
  ghost predicate ClaimWithin(c: Claim, peak: Band) {
    Rank(c.severity) >= Rank(Warning) ==> Rank(c.severity) <= Rank(peak)
  }

  lemma {:induction false} ClaimsOfWithin(devices: seq<DeviceImpact>, current: Band, sourcePeak: Band, peak: Band)
    requires ImpactsWithin(devices, sourcePeak) && Rank(AboveInfo(sourcePeak)) <= Rank(peak)
    ensures forall c | c in ClaimsOf(devices, current) :: ClaimWithin(c, peak)
  {
    if devices != [] {
      assert devices[0] in devices;
      ClaimsOfWithin(devices[1..], current, sourcePeak, peak);
    }
  }

  lemma {:induction false} FloorsCome(inputs: seq<FloorInput>, b: Band)
    ensures b in FloorPeaks(inputs) <==> exists f :: f in inputs && AboveInfo(f.peak) == b
    ensures b in FloorCurrents(inputs) <==> exists f :: f in inputs && AboveInfo(f.current) == b
  {
    if inputs != [] {
      FloorsCome(inputs[1..], b);
      assert inputs == [inputs[0]] + inputs[1..];
      assert forall f :: f in inputs <==> f == inputs[0] || f in inputs[1..];
    }
  }

  lemma {:induction false} RuleInputsCome(rules: seq<RuleConclusion>, f: FloorInput)
    ensures f in RuleInputs(rules)
       <==> exists r :: r in rules && f == FloorInput(RuleSource(r.plugin), r.conclusion.peak, r.conclusion.current)
  {
    if rules != [] {
      RuleInputsCome(rules[1..], f);
      assert forall r :: r in rules <==> r == rules[0] || r in rules[1..];
    }
  }

  lemma {:induction false} DeviceBandsCome(devices: seq<DeviceSeverity>, b: Band)
    ensures b in Peaks(devices) <==> exists d :: d in devices && d.peak == b
    ensures b in Currents(devices) <==> exists d :: d in devices && d.current == b
  {
    if devices != [] {
      DeviceBandsCome(devices[1..], b);
      assert forall d :: d in devices <==> d == devices[0] || d in devices[1..];
    }
  }

  /** The report concluded and cites, itself or in a finding or a device, a health item that can be cited. */
  ghost predicate ReportCounts(i: Inputs) {
    && i.agent.Some? && i.agent.value.concluded
    && exists item :: item in i.evidence && item.kind == ServiceHealth && item.citable && CitedBy(item.id, i.agent.value)
  }

  ghost predicate CitedBy(id: nat, a: AgentConclusion) {
    || id in a.evidence
    || (exists f :: f in a.findings && id in f.evidence)
    || (exists d :: d in a.devices && id in d.evidence)
  }

  lemma ContributesMeans(i: Inputs)
    ensures Contributes(i.agent, i.evidence) <==> ReportCounts(i)
  {
  }

  /** The band is this one, and at warning or above. */
  predicate Warns(band: Band, b: Band) {
    band == b && (b == Warning || b == Critical)
  }

  /** A band some input of the verdict states: the base of the coverage, a conclusion's or a device's at warning or above,
      or the report's. */
  ghost predicate StatesPeak(i: Inputs, b: Band) {
    || b == (if i.coverage == Complete then NoImpact else Info)
    || SourceStatesPeak(i, b)
    || (ReportCounts(i) && i.agent.value.peak == Some(b))
  }

  ghost predicate SourceStatesPeak(i: Inputs, b: Band) {
    || (i.monitoring.Some? && Warns(i.monitoring.value.peak, b))
    || (i.deployment.Some? && Warns(i.deployment.value.peak, b))
    || (exists r :: r in i.rules && Warns(r.conclusion.peak, b))
    || (exists d :: d in i.devices && Warns(d.peak, b))
  }

  ghost predicate StatesCurrent(i: Inputs, b: Band) {
    || b == (if i.coverage == Complete then NoImpact else Info)
    || SourceStatesCurrent(i, b)
    || (ReportCounts(i) && i.agent.value.current == Some(b))
  }

  ghost predicate SourceStatesCurrent(i: Inputs, b: Band) {
    || (i.monitoring.Some? && Warns(i.monitoring.value.current, b))
    || (i.deployment.Some? && Warns(i.deployment.value.current, b))
    || (exists r :: r in i.rules && Warns(r.conclusion.current, b))
    || (exists d :: d in i.devices && Warns(d.current, b))
  }

  /** The floor inputs, source by source. */
  lemma InputsCome(i: Inputs, f: FloorInput)
    ensures f in FloorInputs(i)
       <==> || f in MonitoringInput(i)
            || (i.deployment.Some? && f == FloorInput(DeploymentSource, i.deployment.value.peak, i.deployment.value.current))
            || (exists r :: r in i.rules && f == FloorInput(RuleSource(r.plugin), r.conclusion.peak, r.conclusion.current))
  {
    SortedMembers(i.rules, PluginLeq);
    RuleInputsCome(Prioritized(i.rules, PluginLeq), f);
  }

  lemma InputPeakStated(i: Inputs, f: FloorInput)
    requires f in FloorInputs(i) && AboveInfo(f.peak) != NoImpact
    ensures SourceStatesPeak(i, AboveInfo(f.peak))
  {
    InputsCome(i, f);
    WorstBounds(Peaks(i.devices));
    DeviceBandsCome(i.devices, Worst(Peaks(i.devices)));
  }

  lemma FloorPeakStated(i: Inputs)
    ensures FloorPeak(i) == NoImpact || SourceStatesPeak(i, FloorPeak(i))
  {
    var inputs, extra := FloorInputs(i), AboveInfo(Worst(Peaks(i.devices)));
    WorstBounds(FloorPeaks(inputs) + [extra]);
    FloorsCome(inputs, FloorPeak(i));
    if FloorPeak(i) in FloorPeaks(inputs) {
      var f :| f in inputs && AboveInfo(f.peak) == FloorPeak(i);
      if FloorPeak(i) != NoImpact {
        InputPeakStated(i, f);
      }
    } else {
      WorstBounds(Peaks(i.devices));
      DeviceBandsCome(i.devices, Worst(Peaks(i.devices)));
    }
  }

  lemma InputCurrentStated(i: Inputs, f: FloorInput)
    requires f in FloorInputs(i) && AboveInfo(f.current) != NoImpact
    ensures SourceStatesCurrent(i, AboveInfo(f.current))
  {
    InputsCome(i, f);
    WorstBounds(Currents(i.devices));
    DeviceBandsCome(i.devices, Worst(Currents(i.devices)));
  }

  lemma FloorCurrentStated(i: Inputs)
    ensures FloorCurrent(i) == NoImpact || SourceStatesCurrent(i, FloorCurrent(i))
  {
    var inputs, extra := FloorInputs(i), AboveInfo(Worst(Currents(i.devices)));
    WorstBounds(FloorCurrents(inputs) + [extra]);
    FloorsCome(inputs, FloorCurrent(i));
    if FloorCurrent(i) in FloorCurrents(inputs) {
      var f :| f in inputs && AboveInfo(f.current) == FloorCurrent(i);
      if FloorCurrent(i) != NoImpact {
        InputCurrentStated(i, f);
      }
    } else {
      WorstBounds(Currents(i.devices));
      DeviceBandsCome(i.devices, Worst(Currents(i.devices)));
    }
  }

  lemma InputHolds(i: Inputs, f: FloorInput)
    requires f in FloorInputs(i)
    ensures Rank(AboveInfo(f.peak)) <= Rank(FloorPeak(i)) && Rank(AboveInfo(f.current)) <= Rank(FloorCurrent(i))
  {
    WorstBounds(FloorPeaks(FloorInputs(i)) + [AboveInfo(Worst(Peaks(i.devices)))]);
    WorstBounds(FloorCurrents(FloorInputs(i)) + [AboveInfo(Worst(Currents(i.devices)))]);
    FloorsCome(FloorInputs(i), AboveInfo(f.peak));
    FloorsCome(FloorInputs(i), AboveInfo(f.current));
  }

  lemma DevicesHold(i: Inputs, d: DeviceSeverity)
    requires d in i.devices
    ensures Rank(AboveInfo(d.peak)) <= Rank(FloorPeak(i)) && Rank(AboveInfo(d.current)) <= Rank(FloorCurrent(i))
  {
    DeviceBandsCome(i.devices, d.peak);
    DeviceBandsCome(i.devices, d.current);
    WorstBounds(Peaks(i.devices));
    WorstBounds(Currents(i.devices));
    WorstSnoc(FloorPeaks(FloorInputs(i)), AboveInfo(Worst(Peaks(i.devices))));
    WorstSnoc(FloorCurrents(FloorInputs(i)), AboveInfo(Worst(Currents(i.devices))));
  }

  lemma ConclusionsHold(i: Inputs)
    ensures i.monitoring.Some? ==> Rank(AboveInfo(i.monitoring.value.peak)) <= Rank(FloorPeak(i))
                                   && Rank(AboveInfo(i.monitoring.value.current)) <= Rank(FloorCurrent(i))
    ensures i.deployment.Some? ==> Rank(AboveInfo(i.deployment.value.peak)) <= Rank(FloorPeak(i))
                                   && Rank(AboveInfo(i.deployment.value.current)) <= Rank(FloorCurrent(i))
    ensures forall r | r in i.rules :: Rank(AboveInfo(r.conclusion.peak)) <= Rank(FloorPeak(i))
                                       && Rank(AboveInfo(r.conclusion.current)) <= Rank(FloorCurrent(i))
  {
    if i.monitoring.Some? {
      var f := MonitoringInput(i)[0];
      InputsCome(i, f);
      InputHolds(i, f);
    }
    if i.deployment.Some? {
      var f := FloorInput(DeploymentSource, i.deployment.value.peak, i.deployment.value.current);
      InputsCome(i, f);
      InputHolds(i, f);
    }
    forall r | r in i.rules
      ensures Rank(AboveInfo(r.conclusion.peak)) <= Rank(FloorPeak(i))
      ensures Rank(AboveInfo(r.conclusion.current)) <= Rank(FloorCurrent(i))
    {
      var f := FloorInput(RuleSource(r.plugin), r.conclusion.peak, r.conclusion.current);
      InputsCome(i, f);
      InputHolds(i, f);
    }
  }

  lemma PeaksBounded(i: Inputs, b: Band)
    requires SourceStatesPeak(i, b)
    ensures Rank(b) <= Rank(FloorPeak(i))
  {
    ConclusionsHold(i);
    if d :| d in i.devices && Warns(d.peak, b) {
      DevicesHold(i, d);
    }
  }

  lemma CurrentsBounded(i: Inputs, b: Band)
    requires SourceStatesCurrent(i, b)
    ensures Rank(b) <= Rank(FloorCurrent(i))
  {
    ConclusionsHold(i);
    if d :| d in i.devices && Warns(d.current, b) {
      DevicesHold(i, d);
    }
  }

  /** The published peak is the worst band anything states, and something states it. */
  lemma PublishedPeakExactly(i: Inputs)
    ensures StatesPeak(i, PublishedPeak(i))
    ensures forall b: Band | StatesPeak(i, b) :: Rank(b) <= Rank(PublishedPeak(i))
  {
    WorstOfThree(Base(i.coverage), FloorPeak(i), ContributedPeak(i));
    ContributesMeans(i);
    FloorPeakStated(i);
    forall b: Band | SourceStatesPeak(i, b) {
      PeaksBounded(i, b);
    }
  }

  /** And the published current the worst current. */
  lemma PublishedCurrentExactly(i: Inputs)
    ensures StatesCurrent(i, PublishedCurrent(i))
    ensures forall b: Band | StatesCurrent(i, b) :: Rank(b) <= Rank(PublishedCurrent(i))
  {
    WorstOfThree(Base(i.coverage), FloorCurrent(i), ContributedCurrent(i));
    ContributesMeans(i);
    FloorCurrentStated(i);
    forall b: Band | SourceStatesCurrent(i, b) {
      CurrentsBounded(i, b);
    }
  }

  lemma {:induction false} RuleClaimsWithin(rules: seq<RuleConclusion>, peak: Band)
    requires forall r | r in rules :: ValidConclusion(r.conclusion) && Rank(AboveInfo(r.conclusion.peak)) <= Rank(peak)
    ensures forall c | c in RuleClaims(rules) :: ClaimWithin(c, peak)
  {
    if rules != [] {
      assert rules[0] in rules;
      ClaimsOfWithin(rules[0].conclusion.devices, rules[0].conclusion.current, rules[0].conclusion.peak, peak);
      RuleClaimsWithin(rules[1..], peak);
    }
  }

  lemma AllClaimsWithin(i: Inputs)
    requires ValidInputs(i)
    ensures forall c | c in AllClaims(i) :: ClaimWithin(c, PublishedPeak(i))
  {
    ConclusionsHold(i);
    WorstOfThree(Base(i.coverage), FloorPeak(i), ContributedPeak(i));
    SortedMembers(i.rules, PluginLeq);
    var peak := PublishedPeak(i);
    if i.monitoring.Some? {
      ClaimsOfWithin(i.monitoring.value.devices, i.monitoring.value.current, i.monitoring.value.peak, peak);
    }
    if i.deployment.Some? {
      ClaimsOfWithin(i.deployment.value.devices, i.deployment.value.current, i.deployment.value.peak, peak);
    }
    RuleClaimsWithin(Prioritized(i.rules, PluginLeq), peak);
    if Contributes(i.agent, i.evidence) {
      var a := i.agent.value;
      WorstOfThree(Base(i.coverage), FloorPeak(i), ContributedPeak(i));
      ClaimsOfWithin(a.devices, a.current.value, a.peak.value, peak);
    }
  }

  lemma {:induction false} BandsForWithin(row: DeviceSeverity, claims: seq<Claim>, peak: Band)
    requires Ordered(row.peak, row.current) && Rank(AboveInfo(row.peak)) <= Rank(peak)
    requires forall c | c in claims :: ClaimWithin(c, peak)
    ensures var b := BandsFor(row, claims);
            Ordered(b.peak, b.current) && (Rank(b.peak) >= Rank(Warning) ==> Rank(b.peak) <= Rank(peak))
  {
    if claims != [] {
      assert claims[|claims| - 1] in claims && ClaimWithin(claims[|claims| - 1], peak);
      BandsForWithin(row, claims[..|claims| - 1], peak);
    }
  }

  /** Every device the verdict could list is ordered and within the verdict's peak. */
  lemma RowsWithin(i: Inputs, rows: seq<CompactDevice>, bands: map<Name, Bands>)
    requires ValidInputs(i) && BandsAre(bands, Known(i.devices), AllClaims(i)) && RowsAre(rows, bands, Known(i.devices))
    ensures forall d | d in rows :: ValidDevice(d) && Rank(d.peak) <= Rank(PublishedPeak(i))
  {
    KnownRows(i.devices);
    WorstOfThree(Base(i.coverage), FloorPeak(i), ContributedPeak(i));
    AllClaimsWithin(i);
    forall d | d in rows
      ensures ValidDevice(d) && Rank(d.peak) <= Rank(PublishedPeak(i))
    {
      var known := Known(i.devices)[d.mac];
      DevicesHold(i, known);
      BandsForWithin(known, AllClaims(i), PublishedPeak(i));
    }
  }

  // What the agent can and cannot do.

  /** An agent report never lowers a published band, whatever it says. */
  lemma AgentNeverLowers(i: Inputs)
    ensures Rank(PublishedPeak(i.(agent := None))) <= Rank(PublishedPeak(i))
    ensures Rank(PublishedCurrent(i.(agent := None))) <= Rank(PublishedCurrent(i))
  {
    var bare := i.(agent := None);
    SameFloor(i);
    WorstOfThree(Base(i.coverage), FloorPeak(i), ContributedPeak(i));
    WorstOfThree(Base(i.coverage), FloorPeak(bare), ContributedPeak(bare));
    WorstOfThree(Base(i.coverage), FloorCurrent(i), ContributedCurrent(i));
    WorstOfThree(Base(i.coverage), FloorCurrent(bare), ContributedCurrent(bare));
  }

  lemma SameFloor(i: Inputs)
    ensures FloorInputs(i.(agent := None)) == FloorInputs(i)
    ensures FloorPeak(i.(agent := None)) == FloorPeak(i) && FloorCurrent(i.(agent := None)) == FloorCurrent(i)
  {
    assert MonitoringInput(i.(agent := None)) == MonitoringInput(i);
  }

  /** A report that cites no service-health evidence changes nothing of the verdict. */
  lemma UncitedAgentChangesNothing(i: Inputs, v: Verdict, w: Verdict)
    requires !Contributes(i.agent, i.evidence)
    requires Composed(v, i) && Composed(w, i.(agent := None))
    ensures v.peak == w.peak && v.current == w.current && v.recovery == w.recovery && v.confidence == w.confidence
    ensures v.sources == w.sources && AllClaims(i) == AllClaims(i.(agent := None))
  {
    var bare := i.(agent := None);
    SameFloor(i);
    assert PublishedPeak(bare) == PublishedPeak(i) && PublishedCurrent(bare) == PublishedCurrent(i);
    var peak, current := PublishedPeak(i), PublishedCurrent(i);
    FilterAgree(FloorInputs(i), (f: FloorInput) => Decides(i, f, peak) || Decides(i, f, current),
                (f: FloorInput) => Decides(bare, f, peak) || Decides(bare, f, current));
  }

  /** Only a contributing report that concurs with the published peak raises confidence. */
  lemma ConfidenceNeedsConcurrence(i: Inputs, v: Verdict)
    requires Composed(v, i) && ValidInputs(i)
    ensures v.confidence == Medium
       <==> i.agent.Some? && Contributes(i.agent, i.evidence) && i.agent.value.peak == Some(v.peak)
  {
  }

  /** A published `none` means complete coverage, no deterministic warning and no agent band. */
  lemma NoneMeansNothingFound(i: Inputs)
    requires ValidInputs(i)
    ensures PublishedPeak(i) == NoImpact
       <==> i.coverage == Complete && FloorPeak(i) == NoImpact && ContributedPeak(i) == NoImpact
  {
    WorstOfThree(Base(i.coverage), FloorPeak(i), ContributedPeak(i));
  }
}
