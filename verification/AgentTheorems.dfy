/** What an accepted report is stored as, what gives way first, and what each turn counts for. */
module AgentTheorems {
  import opened Contracts
  import opened Ordering
  import opened Evidence
  import opened Conclusions
  import opened Composition
  import opened Agent

  // What gives way.

  /** A severity claim: a finding at warning or above. */
  predicate SeverityClaim(t: Trimmable) {
    t.FindingItem? && t.finding.severity in {Warning, Critical}
  }

  /** A finding below warning. */
  predicate Remark(t: Trimmable) {
    t.FindingItem? && t.finding.severity in {NoImpact, Info}
  }

  predicate SameKind(a: Trimmable, b: Trimmable) {
    (SeverityClaim(a) && SeverityClaim(b)) || (Remark(a) && Remark(b))
  }

  predicate Strictly(a: Trimmable, b: Trimmable) {
    TrimLeq(a, b) && !TrimLeq(b, a)
  }

  /** Severity claims are kept before gaps, gaps before remarks, a worse finding before a lesser one of its kind, and
      otherwise what the report named first. */
  lemma GivesWay(a: Trimmable, b: Trimmable)
    ensures SeverityClaim(a) && !SeverityClaim(b) ==> Strictly(a, b)
    ensures a.GapItem? && Remark(b) ==> Strictly(a, b)
    ensures (SameKind(a, b) && Rank(a.finding.severity) > Rank(b.finding.severity)) ==> Strictly(a, b)
    ensures (SameKind(a, b) && a.finding.severity == b.finding.severity && a.index < b.index) ==> Strictly(a, b)
    ensures (a.GapItem? && b.GapItem? && a.index < b.index) ==> Strictly(a, b)
  {
  }

  // What is stored.

  /** What can give way is every finding that redaction left something of and every gap, in the report's order. */
  predicate HasText(f: ReportedFinding) {
    f.text.Some?
  }

  lemma {:induction false} FindingsKept(findings: seq<ReportedFinding>)
    ensures var left := Filter(findings, HasText);
            && |Findings(findings)| == |left|
            && forall i | 0 <= i < |left| ::
                 HasText(left[i]) && Findings(findings)[i] == Finding(left[i].text.value, left[i].severity, left[i].evidence)
  {
    if findings != [] {
      FindingsKept(findings[1..]);
      FilterMembers(findings, HasText);
      assert Filter(findings, HasText) == (if HasText(findings[0]) then [findings[0]] else []) + Filter(findings[1..], HasText);
    }
  }

  lemma TrimmablesExactly(r: Report, t: Trimmable)
    ensures t in Trimmables(r)
       <==> (t.FindingItem? && t.index < |Findings(r.findings)| && t.finding == Findings(r.findings)[t.index])
            || (t.GapItem? && t.index < |r.gaps| && t.gap == r.gaps[t.index])
  {
    var found, gaps := FindingItems(Findings(r.findings)), GapItems(r.gaps);
    if t.FindingItem? && t.index < |Findings(r.findings)| && t.finding == Findings(r.findings)[t.index] {
      assert found[t.index] == t;
    }
    if t.GapItem? && t.index < |r.gaps| && t.gap == r.gaps[t.index] {
      assert gaps[t.index] == t;
    }
  }

  lemma {:induction false} KeptExactly(kept: seq<Trimmable>)
    ensures forall f :: f in KeptFindings(kept) <==> exists t :: t in kept && t.FindingItem? && t.finding == f
    ensures forall g :: g in KeptGaps(kept) <==> exists t :: t in kept && t.GapItem? && t.gap == g
    ensures |KeptFindings(kept)| + |KeptGaps(kept)| == |kept|
  {
    if kept != [] {
      KeptExactly(kept[1..]);
      assert forall t :: t in kept <==> t == kept[0] || t in kept[1..];
    }
  }

  /** Something the report cites of its own, of a device or of a kept finding is a health item. */
  ghost predicate StillSupported(r: Report, registry: map<nat, Recorded>, kept: seq<Trimmable>) {
    exists id :: IsHealth(registry, id)
                 && (id in r.evidence || (exists d :: d in r.devices && id in d.evidence)
                     || exists t :: t in kept && t.FindingItem? && id in t.finding.evidence)
  }

  /** The stored conclusion is the report's: its bands, its confidence, every device it names and what it cites itself are
      untouched; its findings and gaps are those kept, with one gap more when any gave way. */
  lemma StoredAsReported(r: Report, registry: map<nat, Recorded>, kept: seq<Trimmable>, omitted: multiset<TrimCategory>)
    requires AllDevicesNamed(r)
    ensures var c := Reported(r, registry, kept, omitted);
            && c.concluded && c.peak == Some(r.peak) && c.current == Some(r.current) && c.confidence == Some(r.confidence)
            && |c.devices| == |r.devices|
            && (forall i | 0 <= i < |r.devices| ::
                  c.devices[i] == DeviceImpact(r.devices[i].mac.value, r.devices[i].severity, r.devices[i].evidence))
            && (forall f :: f in c.findings <==> exists t :: t in kept && t.FindingItem? && t.finding == f)
            && (forall g | g != TRIMMED_GAP :: g in c.gaps <==> exists t :: t in kept && t.GapItem? && t.gap == g)
            && (omitted != multiset{} ==> TRIMMED_GAP in c.gaps)
            && |c.findings| + |c.gaps| == |kept| + (if omitted != multiset{} then 1 else 0)
  {
    ImpactsKeep(r.devices);
    KeptExactly(kept);
  }

  /** And one citation is added to the report's own, the first health item it cites, exactly when what is kept would leave
      it with none. */
  lemma OneCitationAdded(r: Report, registry: map<nat, Recorded>, kept: seq<Trimmable>, omitted: multiset<TrimCategory>)
    requires AllDevicesNamed(r) && forall t | t in kept && t.FindingItem? :: ReportMakes(r, t.finding)
    ensures var c := Reported(r, registry, kept, omitted);
            if CitesHealth(r, registry) && !StillSupported(r, registry, kept)
            then exists id :: FirstHealth(r, registry, id) && c.evidence == r.evidence + [id]
            else c.evidence == r.evidence
  {
    SupportLeft(r, registry, kept);
    SupportIs(r, registry);
    var support := Support(r, registry);
    if support != {} && CitedNow(r, kept) * support == {} {
      assert FirstHealth(r, registry, LeastOf(support));
    } else {
      assert r.evidence + [] == r.evidence;
    }
  }

  /** The lowest health item the report cites. */
  ghost predicate FirstHealth(r: Report, registry: map<nat, Recorded>, id: nat) {
    Cites(r, id) && IsHealth(registry, id) && forall other | Cites(r, other) && IsHealth(registry, other) :: id <= other
  }

  function CitedNow(r: Report, kept: seq<Trimmable>): set<nat> {
    var findings, impacted := KeptFindings(kept), Impacts(r.devices);
    (set f, id | f in findings && id in f.evidence :: id)
    + (set d, id | d in impacted && id in d.evidence :: id) + Ids(r.evidence)
  }

  lemma SupportIs(r: Report, registry: map<nat, Recorded>)
    ensures forall id :: id in Support(r, registry) <==> Cites(r, id) && IsHealth(registry, id)
    ensures CitesHealth(r, registry) <==> Support(r, registry) != {}
  {
    forall id
      ensures id in ClaimCited(r) <==> Cites(r, id)
    {
      CitedExactly(r, id);
    }
    if CitesHealth(r, registry) {
      var id :| id in ClaimCited(r) && IsHealth(registry, id);
      assert id in Support(r, registry);
    }
  }

  lemma SupportLeft(r: Report, registry: map<nat, Recorded>, kept: seq<Trimmable>)
    requires AllDevicesNamed(r) && forall t | t in kept && t.FindingItem? :: ReportMakes(r, t.finding)
    ensures CitedNow(r, kept) * Support(r, registry) != {} <==> StillSupported(r, registry, kept)
  {
    SupportIs(r, registry);
    CitedNowMeans(r, kept);
    if CitedNow(r, kept) * Support(r, registry) != {} {
      var id :| id in CitedNow(r, kept) * Support(r, registry);
      assert IsHealth(registry, id);
    }
    if StillSupported(r, registry, kept) {
      var id :| IsHealth(registry, id)
                && (id in r.evidence || (exists d :: d in r.devices && id in d.evidence)
                    || exists t :: t in kept && t.FindingItem? && id in t.finding.evidence);
      if t :| t in kept && t.FindingItem? && id in t.finding.evidence {
        assert ReportMakes(r, t.finding);
      }
      assert Cites(r, id);
      assert id in CitedNow(r, kept) * Support(r, registry);
    }
  }

  lemma CitedNowMeans(r: Report, kept: seq<Trimmable>)
    requires AllDevicesNamed(r)
    ensures forall id :: id in CitedNow(r, kept)
              <==> id in r.evidence || (exists d :: d in r.devices && id in d.evidence)
                   || exists t :: t in kept && t.FindingItem? && id in t.finding.evidence
  {
    KeptExactly(kept);
    ImpactsKeep(r.devices);
    forall id, d | d in r.devices && id in d.evidence
      ensures id in CitedNow(r, kept)
    {
      var i :| 0 <= i < |r.devices| && r.devices[i] == d;
      assert Impacts(r.devices)[i] in Impacts(r.devices);
    }
    forall id, d | d in Impacts(r.devices) && id in d.evidence
      ensures exists e :: e in r.devices && id in e.evidence
    {
      var i :| 0 <= i < |r.devices| && Impacts(r.devices)[i] == d;
      assert r.devices[i] in r.devices;
    }
  }

  // The prompt.

  /** The order payloads are withheld in: what an MCP read before what a rule read, the oldest first, the fixed part never. */
  lemma WithheldFirst(evidence: seq<Shown>, visible: seq<Shown>, withheld: seq<Shown>, a: Shown, b: Shown)
    requires withheld <= Prioritized(Filter(evidence, Withholdable), WithheldLeq)
    requires visible == Visible(evidence, Prioritized(Filter(evidence, Withholdable), WithheldLeq), |withheld|)
    requires a in withheld && b in evidence && b !in withheld && b.family != FixedFamily
    ensures a in evidence && a.family != FixedFamily
    ensures a.family == RuleFamily ==> b.family == RuleFamily
    ensures a.family == b.family ==> a.id <= b.id
  {
    var able := Filter(evidence, Withholdable);
    var candidates := Prioritized(able, WithheldLeq);
    FilterMembers(evidence, Withholdable);
    SortedMembers(able, WithheldLeq);
    WithheldOrdered();
    PrioritizedOrdered(able, WithheldLeq);
    var i :| 0 <= i < |withheld| && withheld[i] == a;
    assert b in candidates;
    var j :| 0 <= j < |candidates| && candidates[j] == b;
    assert forall m | 0 <= m < |withheld| :: candidates[m] == withheld[m] && withheld[m] in withheld;
    assert candidates[i] == a && a in candidates;
    OrderedAt(candidates, WithheldLeq, i, j);
  }

  lemma WithheldOrdered()
    ensures Total(WithheldLeq) && Transitive(WithheldLeq)
  {
  }

  // The turns.

  /** What each stored turn was: a call for a read, made while more than the report-only turns are left; a report; or
      nothing usable. */
  lemma StepsExactly(run: Run, turns: seq<Turn>, coverage: Coverage, k: nat)
    requires RunOf(run, turns, coverage) && k < |run.steps|
    ensures var step, answer := run.steps[k], turns[k].answer;
            && step.turn == k + 1
            && (step.kind == CallKind <==> answer.CallAction? || answer.CallExpired?)
            && (step.kind == ReportKind <==> answer.ReportAction?)
            && (step.called <==> answer.CallAction? && k < MAX_MODEL_TURNS - 3)
            && (step.accepted <==> answer.ReportAction?
                                   && Conforms(answer.report, turns[k].registry, turns[k].visible, coverage))
  {
    assert run.steps[k] == StepFor(turns[k], k + 1, coverage);
    if turns[k].answer.ReportAction? {
      AcceptedExactly(turns[k].answer.report, turns[k].registry, turns[k].visible, coverage);
    }
  }

  /** A run goes on until a conforming report, a failure, the deadline or the last turn, and reports exactly that
      report. */
  lemma RunsToItsEnd(run: Run, turns: seq<Turn>, coverage: Coverage, k: nat)
    requires RunOf(run, turns, coverage) && |turns| == MAX_MODEL_TURNS && k < MAX_MODEL_TURNS
    requires turns[k].answer.ReportAction?
             && Conforms(turns[k].answer.report, turns[k].registry, turns[k].visible, coverage)
    requires forall j | 0 <= j < k ::
               turns[j].answer in {NotAnAction, CallAction}
               || (turns[j].answer.ReportAction?
                   && !Conforms(turns[j].answer.report, turns[j].registry, turns[j].visible, coverage))
    ensures |run.steps| == k + 1 && run.report == Some(turns[k].answer.report)
  {
    forall j | 0 <= j <= k && turns[j].answer.ReportAction?
      ensures Check(turns[j].answer.report, turns[j].registry, turns[j].visible, coverage) == None
         <==> Conforms(turns[j].answer.report, turns[j].registry, turns[j].visible, coverage)
    {
      AcceptedExactly(turns[j].answer.report, turns[j].registry, turns[j].visible, coverage);
    }
    StopsAt(run, turns, coverage, k);
  }

  /** A run stops at the first turn that ends it. */
  lemma StopsAt(run: Run, turns: seq<Turn>, coverage: Coverage, k: nat)
    requires RunOf(run, turns, coverage) && |turns| == MAX_MODEL_TURNS && k < MAX_MODEL_TURNS
    requires forall j | 0 <= j < k :: !Ends(turns[j], coverage) && !turns[j].answer.DeadlinePassed?
    requires turns[k].answer.ReportAction? && Ends(turns[k], coverage)
    ensures |run.steps| == k + 1 && run.report == Some(turns[k].answer.report)
  {
    if |run.steps| == k + 1 {
      assert run.steps[k] == StepFor(turns[k], k + 1, coverage) && run.steps[k] in run.steps;
    }
  }
}
