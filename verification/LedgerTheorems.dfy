/** Statuses and coverage of a ledger, and what complete coverage means for every change the audit made. */
module LedgerTheorems {
  import opened Contracts
  import opened Ordering
  import opened Change
  import opened Obligations
  import opened Targeting
  import opened RowResolver
  import opened Numbering
  import opened Ledger

  // Statuses.

  /** The core's own status wins, and an obligation nobody reported is unsatisfied. */
  function StatusOf(ledger: Ledger, reported: map<nat, Status>, id: nat): Status {
    if id in ledger.statuses then ledger.statuses[id]
    else if id in reported then reported[id]
    else Status(Unsatisfied, Some(NoStatusReported))
  }

  function ResolveStatuses(ledger: Ledger, reported: map<nat, Status>): (out: map<nat, Status>)
    ensures out.Keys == set o | o in ledger.obligations :: o.id
    ensures forall id | id in out && id in ledger.statuses :: out[id] == ledger.statuses[id]
    ensures (forall id | id in ledger.statuses :: ValidStatus(ledger.statuses[id]))
            && (forall id | id in reported :: ValidStatus(reported[id]))
        ==> forall id | id in out :: ValidStatus(out[id])
  {
    map id | id in (set o | o in ledger.obligations :: o.id) :: StatusOf(ledger, reported, id)
  }

  predicate HasStatus(ledger: Ledger, reported: map<nat, Status>, role: Role, value: StatusValue) {
    exists o | o in ledger.obligations :: o.role == role && StatusOf(ledger, reported, o.id).value == value
  }

  /** The deterministic coverage table, in its order. */
  function CoverageOf(ledger: Ledger, reported: map<nat, Status>): Coverage {
    if !exists o | o in ledger.obligations :: o.role == Observation then Insufficient
    else if HasStatus(ledger, reported, Observation, Unsatisfied)
            || HasStatus(ledger, reported, Precondition, Unsatisfied)
            || HasStatus(ledger, reported, Precondition, NotExercised) then Partial
    else if forall o | o in ledger.obligations && o.role == Observation ::
              StatusOf(ledger, reported, o.id).value == NotExercised then NotApplicable
    else Complete
  }

  // Which obligations a built ledger holds.

  ghost predicate HoldsKind(ledger: Ledger, kind: Kind) {
    exists o :: o in ledger.obligations && Condemned(o) && o.kind == kind
  }

  /** What coverage depends on: which kinds the core condemned, and that plug-ins own the rest. */
  ghost predicate Shaped(ledger: Ledger) {
    && Settled(ledger.obligations, ledger.statuses)
    && (forall o | o in ledger.obligations :: ValidObligation(o))
    && (forall o | o in ledger.obligations && o.owner != CORE :: o.role == Observation)
  }

  lemma InPart(obligations: seq<Obligation>, parts: seq<seq<Obligation>>, o: Obligation)
    requires |parts| == 4 && obligations == ((parts[0] + parts[1]) + parts[2]) + parts[3]
    ensures o in obligations <==> o in parts[0] || o in parts[1] || o in parts[2] || o in parts[3]
  {
    assert o in obligations <==> o in (parts[0] + parts[1]) + parts[2] || o in parts[3];
  }

  ghost function Reached(trace: Trace): seq<Target> {
    TargetedDevices(trace.macs, LastTargets(TargetsOf(trace.placed)), trace.numbered.claims)
  }

  /** The obligations by kind: numbered plans and anchor, deployments, uncovered rows, inputs. */
  ghost predicate InParts(obligations: seq<Obligation>, numbered: seq<Obligation>, targets: seq<Target>,
                          rows: seq<LedgerRow>, gaps: nat)
  {
    var n := |numbered| + |targets|;
    forall o :: o in obligations
      <==> o in numbered || o in DeploymentPart(|numbered|, targets) || o in UncoveredPart(n, rows)
           || o in InputPart(n + |rows|, gaps)
  }

  lemma Parts(ledger: Ledger, trace: Trace, exclusions: seq<Exclusion>)
    requires Assembled(ledger, trace, exclusions)
    ensures InParts(ledger.obligations, trace.numbered.obligations, Reached(trace), Filter(ledger.rows, IsUncovered),
                    |ledger.gaps|)
  {
    var numbered := trace.numbered.obligations;
    var deployed := |numbered| + |Reached(trace)|;
    var uncovered := Filter(ledger.rows, IsUncovered);
    forall o {
      InPart(ledger.obligations,
             [numbered, DeploymentPart(|numbered|, Reached(trace)), UncoveredPart(deployed, uncovered),
              InputPart(deployed + |uncovered|, |ledger.gaps|)], o);
    }
  }

  lemma DeploymentPartMembers(before: nat, targets: seq<Target>)
    ensures forall o | o in DeploymentPart(before, targets) ::
              o.owner == CORE && o.kind == DeploymentKind && ValidObligation(o) && o.target in targets
  {
    forall i | 0 <= i < |targets|
      ensures ValidObligation(DeploymentPart(before, targets)[i])
    {
      assert ValidObligation(DeploymentObligation(before + i + 1, targets[i]));
    }
  }

  lemma UncoveredPartMembers(before: nat, rows: seq<LedgerRow>)
    requires forall row | row in rows :: row.uncovered != []
    ensures forall o | o in UncoveredPart(before, rows) :: Condemned(o) && o.kind == RuleKind && ValidObligation(o)
    ensures rows != [] ==> UncoveredPart(before, rows)[0] in UncoveredPart(before, rows)
  {
  }

  lemma InputPartMembers(before: nat, n: nat)
    ensures forall o | o in InputPart(before, n) :: Condemned(o) && o.kind == InputKind && ValidObligation(o)
    ensures n > 0 ==> InputPart(before, n)[0] in InputPart(before, n)
  {
    forall o | o in InputPart(before, n)
      ensures Condemned(o) && o.kind == InputKind && ValidObligation(o)
    {
      var i :| 0 <= i < n && InputPart(before, n)[i] == o;
      assert o == InputObligation(before + i + 1);
    }
  }

  lemma UncoveredRowsName(ledger: Ledger, trace: Trace, exclusions: seq<Exclusion>)
    requires RowsResolved(ledger.rows, trace.placed, trace.numbered.claims, exclusions)
    ensures forall row | row in Filter(ledger.rows, IsUncovered) :: row.uncovered != []
    ensures Filter(ledger.rows, IsUncovered) == [] <==> forall row | row in ledger.rows :: row.resolution != Uncovered
  {
    FilterMembers(ledger.rows, IsUncovered);
    forall k | 0 <= k < |ledger.rows|
      ensures IsUncovered(ledger.rows[k]) ==> ledger.rows[k].uncovered != []
    {
      assert Resolved(ledger.rows[k], trace.placed[k].atom, trace.placed[k].target, trace.numbered.claims, exclusions);
    }
    if Filter(ledger.rows, IsUncovered) != [] {
      assert Filter(ledger.rows, IsUncovered)[0] in Filter(ledger.rows, IsUncovered);
    }
  }

  /** Everything before the deployments: the anchor, if the change time is unknown, and plug-in observations. */
  lemma NumberedMembers(s: State, anchor: AnchorSource, plans: seq<PluginPlan>, atoms: set<nat>)
    requires Numbered(s, AnchorPart(anchor), Flatten(plans)) && ValidPlans(plans)
    requires forall p | p in plans :: PlanFits(p, atoms)
    ensures forall o | o in s.obligations :: ValidObligation(o)
    ensures forall o | o in s.obligations && o.owner == CORE :: o.kind == AnchorKind && anchor == ReceiptTime
    ensures forall o | o in s.obligations && o.owner != CORE :: o.role == Observation && o.kind in {MonitoringKind, RuleKind}
    ensures anchor == ReceiptTime ==> AnchorObligation(1) in s.obligations
  {
    var base := AnchorPart(anchor);
    forall o | o in s.obligations
      ensures ValidObligation(o)
      ensures o.owner == CORE ==> o.kind == AnchorKind && anchor == ReceiptTime
      ensures o.owner != CORE ==> o.role == Observation && o.kind in {MonitoringKind, RuleKind}
    {
      var i :| 0 <= i < |s.obligations| && s.obligations[i] == o;
      if i < |base| {
        assert s.obligations[i] == base[i];
      } else {
        PlannedByPlugin(s, base, plans, i, atoms);
        var p, planned :| p in plans && planned in p.plan.obligations && o == planned.(id := i + 1, policy := o.policy);
        assert HasStrict(s.claims, s.obligations[i].id) || !HasStrict(s.claims, s.obligations[i].id);
        assert ValidObligation(planned);
      }
    }
    if anchor == ReceiptTime {
      assert s.obligations[0] == base[0];
    }
  }

  /** The four parts of a built ledger, and what each of them holds. */
  ghost predicate PartKinds(ledger: Ledger, numbered: seq<Obligation>, deployed: seq<Obligation>,
                            uncovered: seq<Obligation>, inputs: seq<Obligation>)
  {
    && (forall o :: o in ledger.obligations <==> o in numbered || o in deployed || o in uncovered || o in inputs)
    && PluginKinds(numbered)
    && (forall o | o in deployed :: ValidObligation(o) && o.owner == CORE && o.kind == DeploymentKind)
    && (forall o | o in uncovered :: ValidObligation(o) && Condemned(o) && o.kind == RuleKind)
    && (forall o | o in inputs :: ValidObligation(o) && Condemned(o) && o.kind == InputKind)
  }

  lemma KindsOfParts(ledger: Ledger, numbered: seq<Obligation>, deployed: seq<Obligation>, uncovered: seq<Obligation>,
                     inputs: seq<Obligation>)
    requires PartKinds(ledger, numbered, deployed, uncovered, inputs)
    ensures forall o | o in ledger.obligations :: ValidObligation(o)
    ensures forall o | o in ledger.obligations && o.owner != CORE :: o.role == Observation && o in numbered
    ensures forall o | o in ledger.obligations && o.kind == MonitoringKind :: o.owner != CORE
    ensures HoldsKind(ledger, AnchorKind) <==> exists o :: o in numbered && o.owner == CORE
    ensures HoldsKind(ledger, RuleKind) <==> uncovered != []
    ensures HoldsKind(ledger, InputKind) <==> inputs != []
  {
    if uncovered != [] {
      assert uncovered[0] in uncovered;
    }
    if inputs != [] {
      assert inputs[0] in inputs;
    }
  }

  lemma LedgerParts(ledger: Ledger, trace: Trace, exclusions: seq<Exclusion>)
    returns (deployed: seq<Obligation>, uncovered: seq<Obligation>, gaps: seq<Obligation>)
    requires Assembled(ledger, trace, exclusions) && PluginKinds(trace.numbered.obligations)
    ensures PartKinds(ledger, trace.numbered.obligations, deployed, uncovered, gaps)
    ensures deployed == DeploymentPart(|trace.numbered.obligations|, Reached(trace))
    ensures uncovered == [] <==> Filter(ledger.rows, IsUncovered) == []
    ensures gaps == [] <==> ledger.gaps == []
  {
    var numbered := |trace.numbered.obligations|;
    var n := numbered + |Reached(trace)|;
    var rows := Filter(ledger.rows, IsUncovered);
    deployed := DeploymentPart(numbered, Reached(trace));
    uncovered := UncoveredPart(n, rows);
    gaps := InputPart(n + |rows|, |ledger.gaps|);
    AssembledKinds(ledger, trace, exclusions);
    PartLengths(numbered, Reached(trace), n, rows, n + |rows|, |ledger.gaps|);
  }

  lemma PartLengths(a: nat, targets: seq<Target>, b: nat, rows: seq<LedgerRow>, c: nat, gaps: nat)
    ensures |DeploymentPart(a, targets)| == |targets|
    ensures |UncoveredPart(b, rows)| == |rows|
    ensures |InputPart(c, gaps)| == gaps
  {
  }

  lemma NumberedKinds(ledger: Ledger, trace: Trace, change: ChangeSet, expected: seq<ExpectedDevice>,
                      plans: seq<PluginPlan>, anchor: AnchorSource, inputs: seq<Reason>)
    requires ValidChangeSet(change) && ValidPlans(plans)
    requires forall p | p in plans :: PlanFits(p, AtomIds(change))
    requires LedgerOf(ledger, trace, change, expected, plans, anchor, inputs)
    ensures PluginKinds(trace.numbered.obligations)
    ensures Assembled(ledger, trace, AllExclusions(plans))
  {
    NumberedMembers(trace.numbered, anchor, plans, AtomIds(change));
  }

  ghost predicate PluginKinds(numbered: seq<Obligation>) {
    && (forall o | o in numbered :: ValidObligation(o))
    && (forall o | o in numbered && o.owner == CORE :: o.kind == AnchorKind)
    && (forall o | o in numbered && o.owner != CORE :: o.role == Observation && o.kind in {MonitoringKind, RuleKind})
  }

  lemma KindsOf(ledger: Ledger, numbered: seq<Obligation>, targets: seq<Target>, rows: seq<LedgerRow>, gaps: nat)
    requires InParts(ledger.obligations, numbered, targets, rows, gaps) && PluginKinds(numbered)
    requires forall row | row in rows :: row.uncovered != []
    ensures var n := |numbered| + |targets|;
            PartKinds(ledger, numbered, DeploymentPart(|numbered|, targets), UncoveredPart(n, rows),
                      InputPart(n + |rows|, gaps))
  {
    var n := |numbered| + |targets|;
    DeploymentPartMembers(|numbered|, targets);
    UncoveredPartMembers(n, rows);
    InputPartMembers(n + |rows|, gaps);
  }

  lemma AssembledKinds(ledger: Ledger, trace: Trace, exclusions: seq<Exclusion>)
    requires Assembled(ledger, trace, exclusions) && PluginKinds(trace.numbered.obligations)
    ensures var numbered := trace.numbered.obligations;
            var n := |numbered| + |Reached(trace)|;
            var rows := Filter(ledger.rows, IsUncovered);
            PartKinds(ledger, numbered, DeploymentPart(|numbered|, Reached(trace)), UncoveredPart(n, rows),
                      InputPart(n + |rows|, |ledger.gaps|))
  {
    Parts(ledger, trace, exclusions);
    UncoveredRowsName(ledger, trace, exclusions);
    KindsOf(ledger, trace.numbered.obligations, Reached(trace), Filter(ledger.rows, IsUncovered), |ledger.gaps|);
  }

  /** The obligations of a built ledger, and what each condition on coverage makes of them. */
  lemma LedgerShaped(ledger: Ledger, trace: Trace, change: ChangeSet, expected: seq<ExpectedDevice>,
                     plans: seq<PluginPlan>, anchor: AnchorSource, inputs: seq<Reason>)
    requires ValidChangeSet(change) && ValidPlans(plans)
    requires forall p | p in plans :: PlanFits(p, AtomIds(change))
    requires LedgerOf(ledger, trace, change, expected, plans, anchor, inputs)
    ensures Shaped(ledger)
    ensures HoldsKind(ledger, AnchorKind) <==> anchor == ReceiptTime
    ensures HoldsKind(ledger, RuleKind) <==> exists row :: row in ledger.rows && row.resolution == Uncovered
    ensures HoldsKind(ledger, InputKind) <==> ledger.gaps != []
    ensures forall o | o in ledger.obligations && o.kind == MonitoringKind :: o.owner != CORE
    ensures forall o | o in ledger.obligations && o.owner != CORE :: o in trace.numbered.obligations
  {
    NumberedKinds(ledger, trace, change, expected, plans, anchor, inputs);
    var deployed, uncovered, gaps := LedgerParts(ledger, trace, AllExclusions(plans));
    KindsOfParts(ledger, trace.numbered.obligations, deployed, uncovered, gaps);
    NumberedMembers(trace.numbered, anchor, plans, AtomIds(change));
    UncoveredRowsName(ledger, trace, AllExclusions(plans));
    assert anchor == ReceiptTime ==> AnchorObligation(1).owner == CORE;
  }

  // Complete coverage.

  /** Every deployment precondition was reported satisfied. */
  ghost predicate Deployed(ledger: Ledger, reported: map<nat, Status>) {
    forall o | o in ledger.obligations && o.kind == DeploymentKind ::
      o.id in reported && reported[o.id].value == Satisfied
  }

  /** Every plug-in observation was reported, none of them unsatisfied, and at least one satisfied. */
  ghost predicate Observed(ledger: Ledger, reported: map<nat, Status>) {
    && (forall o | o in ledger.obligations && o.owner != CORE ::
          o.id in reported && reported[o.id].value != Unsatisfied)
    && (exists o :: o in ledger.obligations && o.owner != CORE && o.id in reported && reported[o.id].value == Satisfied)
  }

  ghost predicate NothingCondemned(ledger: Ledger) {
    forall o | o in ledger.obligations :: !Condemned(o)
  }

  /** Coverage is complete exactly when the core condemned nothing and the reports leave nothing open. */
  lemma ShapedComplete(ledger: Ledger, reported: map<nat, Status>)
    requires Shaped(ledger)
    ensures CoverageOf(ledger, reported) == Complete
       <==> NothingCondemned(ledger) && Deployed(ledger, reported) && Observed(ledger, reported)
  {
    if CoverageOf(ledger, reported) == Complete {
      forall o | o in ledger.obligations
        ensures !Condemned(o)
      {
        assert Condemned(o) ==> StatusOf(ledger, reported, o.id).value == Unsatisfied;
        assert o.role == Observation || o.role == Precondition;
      }
      forall o | o in ledger.obligations && o.kind == DeploymentKind
        ensures o.id in reported && reported[o.id].value == Satisfied
      {
        assert o.role == Precondition;
      }
    }
    if NothingCondemned(ledger) && Deployed(ledger, reported) && Observed(ledger, reported) {
      forall o | o in ledger.obligations
        ensures o.owner == CORE <==> o.kind == DeploymentKind
        ensures o.role == Precondition <==> o.kind == DeploymentKind
      {
        assert !Condemned(o) && ValidObligation(o);
      }
    }
  }

  /** The exact condition for complete coverage of a built ledger, whatever plug-ins reported. */
  lemma CoverageExact(ledger: Ledger, trace: Trace, change: ChangeSet, expected: seq<ExpectedDevice>,
                      plans: seq<PluginPlan>, anchor: AnchorSource, inputs: seq<Reason>, reported: map<nat, Status>)
    requires ValidChangeSet(change) && ValidPlans(plans)
    requires forall p | p in plans :: PlanFits(p, AtomIds(change))
    requires LedgerOf(ledger, trace, change, expected, plans, anchor, inputs)
    ensures CoverageOf(ledger, reported) == Complete
       <==> && anchor != ReceiptTime
            && inputs == []
            && (forall a | a in change.atoms :: RowTargets(change, a, expected) != [])
            && (forall row | row in ledger.rows :: row.resolution != Uncovered)
            && Deployed(ledger, reported)
            && Observed(ledger, reported)
  {
    LedgerShaped(ledger, trace, change, expected, plans, anchor, inputs);
    ShapedComplete(ledger, reported);
    UntargetedMeans(change, change.atoms, expected);
    if NothingCondemned(ledger) {
      assert !HoldsKind(ledger, AnchorKind) && !HoldsKind(ledger, RuleKind) && !HoldsKind(ledger, InputKind);
    }
    if !HoldsKind(ledger, AnchorKind) && !HoldsKind(ledger, RuleKind) && !HoldsKind(ledger, InputKind) {
      forall o | o in ledger.obligations
        ensures !Condemned(o)
      {
        assert ValidObligation(o);
      }
    }
  }

  /** Every plug-in observation was reported, and none of them exercised. */
  ghost predicate AllNotExercised(ledger: Ledger, reported: map<nat, Status>) {
    forall o | o in ledger.obligations && o.owner != CORE :: o.id in reported && reported[o.id].value == NotExercised
  }

  /** No plug-in observation is unreported or unsatisfied. */
  ghost predicate NoneUnsatisfied(ledger: Ledger, reported: map<nat, Status>) {
    forall o | o in ledger.obligations && o.owner != CORE :: o.id in reported && reported[o.id].value != Unsatisfied
  }

  ghost predicate HoldsObservation(ledger: Ledger) {
    exists o :: o in ledger.obligations && o.role == Observation
  }

  /** The whole coverage table of a shaped ledger: what each of the four answers means. */
  lemma ShapedCoverage(ledger: Ledger, reported: map<nat, Status>)
    requires Shaped(ledger)
    ensures CoverageOf(ledger, reported) == Insufficient <==> !HoldsObservation(ledger)
    ensures CoverageOf(ledger, reported) == NotApplicable
       <==> HoldsObservation(ledger) && NothingCondemned(ledger) && Deployed(ledger, reported)
            && AllNotExercised(ledger, reported)
    ensures CoverageOf(ledger, reported) == Partial
       <==> HoldsObservation(ledger)
            && !(NothingCondemned(ledger) && Deployed(ledger, reported) && NoneUnsatisfied(ledger, reported))
  {
    ShapedComplete(ledger, reported);
    forall o | o in ledger.obligations
      ensures Condemned(o) ==> StatusOf(ledger, reported, o.id).value == Unsatisfied
      ensures o.kind == DeploymentKind ==> o.role == Precondition && o.owner == CORE && !Condemned(o)
      ensures o.owner != CORE ==> o.role == Observation && !Condemned(o)
      ensures o.role == Observation || o.role == Precondition
    {
      assert ValidObligation(o);
    }
  }

  /** Some plug-in planned an obligation. */
  ghost predicate Planned(plans: seq<PluginPlan>) {
    exists p :: p in plans && p.plan.obligations != []
  }

  lemma PlannedTakesNumber(s: State, base: seq<Obligation>, plans: seq<PluginPlan>, atoms: set<nat>)
    requires Numbered(s, base, Flatten(plans)) && forall p | p in plans :: PlanFits(p, atoms)
    requires Planned(plans)
    ensures exists o :: o in s.obligations && o.owner != CORE
  {
    FlattenMembers(plans);
    var p :| p in plans && p.plan.obligations != [];
    assert Numbering.Planned(p.plugin, p.plan.obligations[0]) in Flatten(plans);
    assert |s.claims| > 0;
    var i := s.claims[0].id - 1;
    PlannedByPlugin(s, base, plans, i, atoms);
    assert s.obligations[i] in s.obligations;
  }

  lemma NumberedWasPlanned(s: State, anchor: AnchorSource, plans: seq<PluginPlan>, atoms: set<nat>, o: Obligation)
    requires Numbered(s, AnchorPart(anchor), Flatten(plans)) && forall p | p in plans :: PlanFits(p, atoms)
    requires o in s.obligations && o.owner != CORE
    ensures Planned(plans)
  {
    var base := AnchorPart(anchor);
    var i :| 0 <= i < |s.obligations| && s.obligations[i] == o;
    assert forall k | 0 <= k < |base| :: s.obligations[k] == base[k] && base[k].owner == CORE;
    PlannedByPlugin(s, base, plans, i, atoms);
  }

  /** Nothing of the change went unseen or unaddressed. */
  ghost predicate AllSeen(ledger: Ledger, change: ChangeSet, expected: seq<ExpectedDevice>, inputs: seq<Reason>)
    requires ValidChangeSet(change)
  {
    && inputs == []
    && (forall a | a in change.atoms :: RowTargets(change, a, expected) != [])
    && (forall row | row in ledger.rows :: row.resolution != Uncovered)
  }

  lemma ObservationsHeld(ledger: Ledger, trace: Trace, change: ChangeSet, expected: seq<ExpectedDevice>,
                         plans: seq<PluginPlan>, anchor: AnchorSource, inputs: seq<Reason>)
    requires ValidChangeSet(change) && ValidPlans(plans)
    requires forall p | p in plans :: PlanFits(p, AtomIds(change))
    requires LedgerOf(ledger, trace, change, expected, plans, anchor, inputs)
    ensures HoldsObservation(ledger) <==> Planned(plans) || !AllSeen(ledger, change, expected, inputs)
    ensures NothingCondemned(ledger) <==> anchor != ReceiptTime && AllSeen(ledger, change, expected, inputs)
  {
    LedgerShaped(ledger, trace, change, expected, plans, anchor, inputs);
    UntargetedMeans(change, change.atoms, expected);
    CondemnedKinds(ledger);
    PlannedIsHeld(ledger, trace, change, expected, plans, anchor, inputs);
  }

  lemma PlannedIsHeld(ledger: Ledger, trace: Trace, change: ChangeSet, expected: seq<ExpectedDevice>,
                      plans: seq<PluginPlan>, anchor: AnchorSource, inputs: seq<Reason>)
    requires ValidChangeSet(change) && ValidPlans(plans)
    requires forall p | p in plans :: PlanFits(p, AtomIds(change))
    requires LedgerOf(ledger, trace, change, expected, plans, anchor, inputs)
    ensures Planned(plans) <==> exists o :: o in ledger.obligations && o.owner != CORE
  {
    LedgerShaped(ledger, trace, change, expected, plans, anchor, inputs);
    if Planned(plans) {
      PlannedTakesNumber(trace.numbered, AnchorPart(anchor), plans, AtomIds(change));
      var o :| o in trace.numbered.obligations && o.owner != CORE;
      assert o in ledger.obligations;
    }
    if o :| o in ledger.obligations && o.owner != CORE {
      NumberedWasPlanned(trace.numbered, anchor, plans, AtomIds(change), o);
    }
  }

  /** An observation is a plug-in's, or one the core condemns. */
  lemma CondemnedKinds(ledger: Ledger)
    requires Shaped(ledger) && forall o | o in ledger.obligations && o.kind == MonitoringKind :: o.owner != CORE
    ensures NothingCondemned(ledger)
       <==> !HoldsKind(ledger, AnchorKind) && !HoldsKind(ledger, RuleKind) && !HoldsKind(ledger, InputKind)
    ensures HoldsObservation(ledger)
       <==> (exists o :: o in ledger.obligations && o.owner != CORE) || HoldsKind(ledger, RuleKind)
            || HoldsKind(ledger, InputKind)
  {
    forall o | o in ledger.obligations
      ensures Condemned(o) ==> o.kind == AnchorKind || o.kind == RuleKind || o.kind == InputKind
      ensures o.role == Observation ==> o.owner != CORE || o.kind == RuleKind || o.kind == InputKind
      ensures o.owner == CORE && (o.kind == RuleKind || o.kind == InputKind) ==> o.role == Observation
    {
      assert ValidObligation(o);
    }
  }

  /** The coverage table in terms of what the ledger was built of: insufficient exactly when no plug-in planned anything
      and nothing else asks to be observed; not applicable exactly when everything planned was found not exercised and
      nothing stands against it; and partial exactly when something stands against it. */
  lemma CoverageTable(ledger: Ledger, trace: Trace, change: ChangeSet, expected: seq<ExpectedDevice>,
                      plans: seq<PluginPlan>, anchor: AnchorSource, inputs: seq<Reason>, reported: map<nat, Status>)
    requires ValidChangeSet(change) && ValidPlans(plans)
    requires forall p | p in plans :: PlanFits(p, AtomIds(change))
    requires LedgerOf(ledger, trace, change, expected, plans, anchor, inputs)
    ensures CoverageOf(ledger, reported) == Insufficient
       <==> !Planned(plans) && AllSeen(ledger, change, expected, inputs)
    ensures CoverageOf(ledger, reported) == NotApplicable
       <==> Planned(plans) && anchor != ReceiptTime && AllSeen(ledger, change, expected, inputs)
            && Deployed(ledger, reported) && AllNotExercised(ledger, reported)
    ensures CoverageOf(ledger, reported) == Partial
       <==> !AllSeen(ledger, change, expected, inputs)
            || (Planned(plans)
                && (anchor == ReceiptTime || !Deployed(ledger, reported) || !NoneUnsatisfied(ledger, reported)))
  {
    LedgerShaped(ledger, trace, change, expected, plans, anchor, inputs);
    ObservationsHeld(ledger, trace, change, expected, plans, anchor, inputs);
    ShapedCoverage(ledger, reported);
  }

  lemma CoveredRowAddresses(rows: seq<LedgerRow>, placed: seq<Placed>, claims: seq<Claim>, exclusions: seq<Exclusion>,
                            p: Placed)
    requires RowsResolved(rows, placed, claims, exclusions) && p in placed
    requires forall row | row in rows :: row.resolution != Uncovered
    ensures p.atom.complete && forall path | path in p.atom.paths :: Addressed(path, p.atom, p.target, claims, exclusions)
  {
    var k :| 0 <= k < |placed| && placed[k] == p;
    assert rows[k] in rows && Resolved(rows[k], p.atom, p.target, claims, exclusions);
    ResolvedRowIsValid(rows[k], p.atom, p.target, claims, exclusions);
  }

  /** Complete coverage: every atom sits on a row, its paths are complete, and each of them is addressed on every
      target by a plug-in's claim or exclusion for that atom reaching that target. */
  lemma CompleteCoverageAddressesEveryPath(ledger: Ledger, trace: Trace, change: ChangeSet,
                                           expected: seq<ExpectedDevice>, plans: seq<PluginPlan>, anchor: AnchorSource,
                                           inputs: seq<Reason>, reported: map<nat, Status>, atom: Atom)
    requires ValidChangeSet(change) && ValidPlans(plans)
    requires forall p | p in plans :: PlanFits(p, AtomIds(change))
    requires LedgerOf(ledger, trace, change, expected, plans, anchor, inputs)
    requires CoverageOf(ledger, reported) == Complete && atom in change.atoms
    ensures atom.complete && RowTargets(change, atom, expected) != []
    ensures forall t, path | t in RowTargets(change, atom, expected) && path in atom.paths ::
              Addressed(path, atom, t, trace.numbered.claims, AllExclusions(plans))
  {
    CoverageExact(ledger, trace, change, expected, plans, anchor, inputs, reported);
    PlaceMembers(change, change.atoms, expected);
    forall t | t in RowTargets(change, atom, expected)
      ensures atom.complete
      ensures forall path | path in atom.paths ::
                Addressed(path, atom, t, trace.numbered.claims, AllExclusions(plans))
    {
      CoveredRowAddresses(ledger.rows, trace.placed, trace.numbered.claims, AllExclusions(plans), Placed(atom, t));
    }
    var t := RowTargets(change, atom, expected)[0];
    assert t in RowTargets(change, atom, expected);
  }

  /** A plug-in of these plans claims or excludes the path, or an ancestor of it, for this atom on this target. */
  ghost predicate AddressedByPlugin(plans: seq<PluginPlan>, atom: Atom, target: Target, path: Path) {
    exists p :: p in plans && (ClaimsPath(p.plan, atom, target, path) || ExcludesPath(p.plan, atom, target, path))
  }

  ghost predicate ClaimsPath(plan: RulePlan, atom: Atom, target: Target, path: Path) {
    exists o, prefix :: o in plan.obligations && o.atom == Some(atom.id) && Reaches(o.target, target)
                        && prefix in o.paths && Covers(prefix, path)
  }

  ghost predicate ExcludesPath(plan: RulePlan, atom: Atom, target: Target, path: Path) {
    exists e, prefix :: e in plan.exclusions && e.atom == atom.id && Reaches(e.target, target)
                        && prefix in e.paths && Covers(prefix, path)
  }

  lemma {:induction false} ExclusionsFromPlans(plans: seq<PluginPlan>, e: Exclusion)
    ensures e in AllExclusions(plans) <==> exists p :: p in plans && e in p.plan.exclusions
  {
    if plans != [] {
      ExclusionsFromPlans(plans[1..], e);
      assert forall p :: p in plans <==> p == plans[0] || p in plans[1..];
    }
  }

  lemma AddressedMeans(s: State, base: seq<Obligation>, plans: seq<PluginPlan>, atom: Atom, target: Target, path: Path,
                       raw: Path)
    requires Numbered(s, base, Flatten(plans)) && Covers(path, raw)
    requires Addressed(path, atom, target, s.claims, AllExclusions(plans))
    ensures AddressedByPlugin(plans, atom, target, raw)
  {
    FlattenMembers(plans);
    if c :| c in s.claims && Claims(c, atom, target) && CoveredBy(PathSet(c.obligation.paths), path) {
      var prefix :| prefix in PathSet(c.obligation.paths) && Covers(prefix, path);
      CoversTransitive(prefix, path, raw);
      var j :| 0 <= j < |s.claims| && s.claims[j] == c;
      assert Flatten(plans)[j].obligation == c.obligation && Flatten(plans)[j] in Flatten(plans);
      var p :| p in plans && c.obligation in p.plan.obligations;
      assert ClaimsPath(p.plan, atom, target, raw);
    } else {
      var e :| e in AllExclusions(plans) && Excludes(e, atom, target) && CoveredBy(PathSet(e.paths), path);
      var prefix :| prefix in PathSet(e.paths) && Covers(prefix, path);
      CoversTransitive(prefix, path, raw);
      ExclusionsFromPlans(plans, e);
      var p :| p in plans && e in p.plan.exclusions;
      assert ExcludesPath(p.plan, atom, target, raw);
    }
  }

  /** From the walker to the verdict: under complete coverage every location the walker found changed in any object is
      addressed by a plug-in, on every device the change applies to, and no location was left unreported. */
  lemma CompleteCoverageMissesNothing(ledger: Ledger, trace: Trace, change: ChangeSet, changes: seq<ObjectChange>,
                                      expected: seq<ExpectedDevice>, plans: seq<PluginPlan>, anchor: AnchorSource,
                                      inputs: seq<Reason>, reported: map<nat, Status>, c: ObjectChange, path: Path)
    returns (atom: Atom)
    requires Built(change, changes) && ValidChangeSet(change) && ValidPlans(plans)
    requires forall p | p in plans :: PlanFits(p, AtomIds(change))
    requires LedgerOf(ledger, trace, change, expected, plans, anchor, inputs)
    requires CoverageOf(ledger, reported) == Complete
    requires c in changes && path in c.paths && path != []
    ensures atom in change.atoms && IsAtomOf(atom, c) && atom.attribute == path[0]
    ensures c.complete && RowTargets(change, atom, expected) != []
    ensures forall t | t in RowTargets(change, atom, expected) :: AddressedByPlugin(plans, atom, t, path)
  {
    EveryPathHasAtom(change, changes, c, path);
    var q;
    atom, q :| atom in change.atoms && IsAtomOf(atom, c) && atom.attribute == path[0]
               && q in atom.paths && Covers(q, path);
    CompleteCoverageAddressesEveryPath(ledger, trace, change, expected, plans, anchor, inputs, reported, atom);
    forall t | t in RowTargets(change, atom, expected)
      ensures AddressedByPlugin(plans, atom, t, path)
    {
      AddressedMeans(trace.numbered, AnchorPart(anchor), plans, atom, t, q, path);
    }
  }

  /** A change set of built atoms is valid: every atom belongs to an object, and ids tell atoms apart. */
  lemma BuiltIsValid(change: ChangeSet, changes: seq<ObjectChange>)
    requires Built(change, changes)
    ensures ValidChangeSet(change)
  {
    forall a | a in change.atoms
      ensures HasObject(change.objects, a)
    {
      var k :| 0 <= k < |change.atoms| && change.atoms[k] == a;
      assert Owned(change.atoms[k], changes);
      var c :| c in changes && IsAtomOf(a, c);
      var i :| 0 <= i < |changes| && changes[i] == c;
      assert change.objects[i] == ObjectOf(c) && change.objects[i] in change.objects;
    }
  }

  // Gaps found later.

  /** This ledger plus one unsatisfied core observation per gap found after it was built. */
  method WithGaps(ledger: Ledger, reasons: seq<Reason>) returns (r: Ledger)
    requires Shaped(ledger)
    ensures Shaped(r) && r.rows == ledger.rows && r.planIds == ledger.planIds
    ensures reasons == [] ==> r == ledger
    ensures r.gaps == reasons + ledger.gaps
    ensures r.obligations == ledger.obligations + InputPart(|ledger.obligations|, |reasons|)
    ensures GapsStated(r.statuses, |ledger.obligations|, reasons)
    ensures forall id | id in ledger.statuses :: id in r.statuses && r.statuses[id] == ledger.statuses[id]
  {
    if reasons == [] {
      assert ledger.obligations + InputPart(|ledger.obligations|, 0) == ledger.obligations;
      assert [] + ledger.gaps == ledger.gaps;
      return ledger;
    }
    var obligations, statuses := AppendGaps(ledger.obligations, ledger.statuses, reasons);
    InputPartMembers(|ledger.obligations|, |reasons|);
    r := ledger.(obligations := obligations, statuses := statuses, gaps := reasons + ledger.gaps);
  }

  /** A gap found late forces partial coverage, whatever was reported. */
  lemma GapsForcePartial(before: Ledger, after: Ledger, reasons: seq<Reason>, reported: map<nat, Status>)
    requires Shaped(after) && reasons != []
    requires after.obligations == before.obligations + InputPart(|before.obligations|, |reasons|)
    ensures CoverageOf(after, reported) == Partial
  {
    InputPartMembers(|before.obligations|, |reasons|);
    var o := InputPart(|before.obligations|, |reasons|)[0];
    assert o in after.obligations && Condemned(o);
    assert StatusOf(after, reported, o.id).value == Unsatisfied;
  }

  // A plug-in's own statuses.

  /** A plug-in's statuses under ledger ids; only its own rule obligations qualify. */
  predicate OwnRule(ledger: Ledger, plugin: Name, id: nat) {
    exists o | o in ledger.obligations :: o.id == id && o.owner == plugin && o.kind == RuleKind
  }

  predicate Maps(ledger: Ledger, plugin: Name, local: nat) {
    local in PluginIds(ledger.planIds, plugin) && OwnRule(ledger, plugin, PluginIds(ledger.planIds, plugin)[local])
  }

  /** No two of a plug-in's own rule ids share a ledger id, so re-keying loses no status. */
  ghost predicate RulesApart(ledger: Ledger, plugin: Name) {
    forall a, b | Maps(ledger, plugin, a) && Maps(ledger, plugin, b) && a != b ::
      PluginIds(ledger.planIds, plugin)[a] != PluginIds(ledger.planIds, plugin)[b]
  }

  lemma RekeyKeeps(mapped: map<nat, Status>, ledger: Ledger, plugin: Name, statuses: map<nat, Status>, seen: set<nat>,
                   local: nat)
    requires RulesApart(ledger, plugin) && local in statuses && Maps(ledger, plugin, local) && local !in seen
    requires forall a | a in seen :: a in statuses && Maps(ledger, plugin, a) && Rekeyed(mapped, ledger, plugin, statuses, a)
    ensures var next := mapped[PluginIds(ledger.planIds, plugin)[local] := statuses[local]];
            forall a | a in seen || a == local :: Rekeyed(next, ledger, plugin, statuses, a)
  {
  }

  method RuleStatuses(ledger: Ledger, plugin: Name, statuses: map<nat, Status>)
    returns (r: Result<map<nat, Status>, LedgerError>)
    requires RulesApart(ledger, plugin)
    ensures r.Err? <==> plugin !in ledger.planIds || exists local | local in statuses :: !Maps(ledger, plugin, local)
    ensures r.Ok? ==> forall local | local in statuses :: Rekeyed(r.value, ledger, plugin, statuses, local)
    ensures r.Ok? ==> forall id | id in r.value :: OwnRule(ledger, plugin, id)
  {
    if plugin !in ledger.planIds {
      return Err(NoPlan);
    }
    var ids := ledger.planIds[plugin];
    var mapped: map<nat, Status> := map[];
    var left := statuses.Keys;
    while left != {}
      invariant left <= statuses.Keys
      invariant forall local | local in statuses.Keys - left ::
                  Maps(ledger, plugin, local) && Rekeyed(mapped, ledger, plugin, statuses, local)
      invariant forall id | id in mapped :: OwnRule(ledger, plugin, id)
      decreases |left|
    {
      var local :| local in left;
      left := left - {local};
      if !Maps(ledger, plugin, local) {
        return Err(NotARule);
      }
      RekeyKeeps(mapped, ledger, plugin, statuses, statuses.Keys - left - {local}, local);
      mapped := mapped[ids[local] := statuses[local]];
    }
    r := Ok(mapped);
  }

  ghost predicate Rekeyed(mapped: map<nat, Status>, ledger: Ledger, plugin: Name, statuses: map<nat, Status>, local: nat)
    requires local in statuses
  {
    && local in PluginIds(ledger.planIds, plugin)
    && PluginIds(ledger.planIds, plugin)[local] in mapped
    && mapped[PluginIds(ledger.planIds, plugin)[local]] == statuses[local]
  }

  lemma BuiltRulesApart(ledger: Ledger, trace: Trace, change: ChangeSet, expected: seq<ExpectedDevice>,
                        plans: seq<PluginPlan>, anchor: AnchorSource, inputs: seq<Reason>, plugin: Name)
    requires ValidChangeSet(change) && LedgerOf(ledger, trace, change, expected, plans, anchor, inputs)
    ensures RulesApart(ledger, plugin)
  {
    forall a, b | Maps(ledger, plugin, a) && Maps(ledger, plugin, b) && a != b
      ensures PluginIds(ledger.planIds, plugin)[a] != PluginIds(ledger.planIds, plugin)[b]
    {
      RuleNumbersApart(trace.numbered, AnchorPart(anchor), Flatten(plans), ledger, plugin, a, b);
    }
  }

  lemma RuleNumbersApart(s: State, base: seq<Obligation>, flat: seq<Planned>, ledger: Ledger, plugin: Name, a: nat, b: nat)
    requires ClaimsOf(s.claims, flat) && Standing(s.obligations, s.claims, |base|) && Shared(s.claims)
    requires Mapped(s.ids, flat, s.claims) && ledger.planIds == s.ids
    requires s.obligations <= ledger.obligations && Consecutive(ledger.obligations)
    requires Maps(ledger, plugin, a) && Maps(ledger, plugin, b) && a != b
    ensures PluginIds(s.ids, plugin)[a] != PluginIds(s.ids, plugin)[b]
  {
    assert PlannedAs(flat, plugin, a) && PlannedAs(flat, plugin, b);
    var i :| 0 <= i < |flat| && flat[i].plugin == plugin && flat[i].obligation.id == a;
    var j :| 0 <= j < |flat| && flat[j].plugin == plugin && flat[j].obligation.id == b;
    assert i != j && PluginIds(s.ids, plugin)[a] == s.claims[i].id && PluginIds(s.ids, plugin)[b] == s.claims[j].id;
    RuleClaim(s, |base|, ledger, plugin, i);
  }

  lemma RuleClaim(s: State, base: nat, ledger: Ledger, plugin: Name, i: nat)
    requires Standing(s.obligations, s.claims, base) && i < |s.claims|
    requires s.obligations <= ledger.obligations && Consecutive(ledger.obligations)
    requires OwnRule(ledger, plugin, s.claims[i].id)
    ensures s.claims[i].obligation.kind == RuleKind
  {
    var k :| 0 <= k < |ledger.obligations| && ledger.obligations[k].id == s.claims[i].id
             && ledger.obligations[k].kind == RuleKind;
    assert k + 1 == s.claims[i].id && ledger.obligations[k] == s.obligations[k];
    assert StandsFor(s.obligations[k], s.claims[i].obligation);
  }

  // One ledger for the inputs, whatever order they come in.

  lemma SameRows(rows: seq<LedgerRow>, others: seq<LedgerRow>, placed: seq<Placed>, claims: seq<Claim>,
                 exclusions: seq<Exclusion>)
    requires RowsResolved(rows, placed, claims, exclusions) && RowsResolved(others, placed, claims, exclusions)
    ensures rows == others
  {
    forall k | 0 <= k < |rows|
      ensures rows[k] == others[k]
    {
      assert Resolved(rows[k], placed[k].atom, placed[k].target, claims, exclusions);
      assert Resolved(others[k], placed[k].atom, placed[k].target, claims, exclusions);
      ResolvedUnique(rows[k], others[k], placed[k].atom, placed[k].target, claims, exclusions);
    }
  }

  /** A status the core states for an obligation whose kind gives its reason. */
  lemma SameReason(s: Status, t: Status, o: Obligation)
    requires Explains(s, o) && Explains(t, o) && (o.kind == AnchorKind || (o.kind == RuleKind && o.atom.Some?))
    ensures s == t
  {
  }

  /** The gaps' obligations are the last ones, and the other obligations the core condemns give their own reason. */
  ghost predicate GapsLast(obligations: seq<Obligation>, gaps: nat) {
    && gaps <= |obligations|
    && forall o | o in obligations[..|obligations| - gaps] && Condemned(o) ::
         o.kind == AnchorKind || (o.kind == RuleKind && o.atom.Some?)
  }

  lemma SameStatuses(obligations: seq<Obligation>, statuses: map<nat, Status>, others: map<nat, Status>,
                     gaps: seq<Reason>)
    requires Settled(obligations, statuses) && Settled(obligations, others) && GapsLast(obligations, |gaps|)
    requires GapsStated(statuses, |obligations| - |gaps|, gaps) && GapsStated(others, |obligations| - |gaps|, gaps)
    ensures statuses == others
  {
    var n := |obligations| - |gaps|;
    forall id
      ensures id in statuses <==> id in others
      ensures id in statuses ==> statuses[id] == others[id]
    {
      if 1 <= id <= |obligations| {
        var o := obligations[id - 1];
        assert o in obligations && o.id == id;
        if id <= n {
          assert obligations[..n][id - 1] == o;
          if Condemned(o) {
            SameReason(statuses[id], others[id], o);
          }
        } else {
          assert GapStated(statuses, n + (id - 1 - n) + 1, gaps[id - 1 - n]);
          assert GapStated(others, n + (id - 1 - n) + 1, gaps[id - 1 - n]);
        }
      }
    }
  }

  lemma SameObligations(ledger: Ledger, trace: Trace, other: Ledger, otherTrace: Trace, exclusions: seq<Exclusion>)
    requires Assembled(ledger, trace, exclusions) && Assembled(other, otherTrace, exclusions)
    requires trace.numbered.obligations == otherTrace.numbered.obligations
    requires trace.numbered.claims == otherTrace.numbered.claims && trace.placed == otherTrace.placed
    requires ledger.gaps == other.gaps
    ensures ledger.rows == other.rows && ledger.obligations == other.obligations
  {
    SameRows(ledger.rows, other.rows, trace.placed, trace.numbered.claims, exclusions);
    AscendingMembers(trace.macs, otherTrace.macs);
  }

  /** Everything before the gaps that the core condemns is its anchor or an uncovered row's observation. */
  lemma GapsComeLast(ledger: Ledger, trace: Trace, exclusions: seq<Exclusion>)
    requires Assembled(ledger, trace, exclusions) && PluginKinds(trace.numbered.obligations)
    ensures GapsLast(ledger.obligations, |ledger.gaps|)
    ensures GapsStated(ledger.statuses, |ledger.obligations| - |ledger.gaps|, ledger.gaps)
  {
    var numbered := trace.numbered.obligations;
    var rows := Filter(ledger.rows, IsUncovered);
    var deployed := numbered + DeploymentPart(|numbered|, Reached(trace));
    var observed := deployed + UncoveredPart(|deployed|, rows);
    assert ledger.obligations[..|observed|] == observed;
    forall o | o in observed && Condemned(o)
      ensures o.kind == AnchorKind || (o.kind == RuleKind && o.atom.Some?)
    {
      DeploymentPartMembers(|numbered|, Reached(trace));
      assert o in numbered || o in DeploymentPart(|numbered|, Reached(trace)) || o in UncoveredPart(|deployed|, rows);
    }
  }

  lemma SameParts(ledger: Ledger, trace: Trace, other: Ledger, otherTrace: Trace, exclusions: seq<Exclusion>)
    requires Assembled(ledger, trace, exclusions) && Assembled(other, otherTrace, exclusions)
    requires PluginKinds(trace.numbered.obligations)
    requires trace.numbered.obligations == otherTrace.numbered.obligations
    requires trace.numbered.claims == otherTrace.numbered.claims && trace.placed == otherTrace.placed
    requires ledger.gaps == other.gaps
    ensures ledger.rows == other.rows && ledger.obligations == other.obligations && ledger.statuses == other.statuses
  {
    SameObligations(ledger, trace, other, otherTrace, exclusions);
    GapsComeLast(ledger, trace, exclusions);
    GapsComeLast(other, otherTrace, exclusions);
    SameStatuses(ledger.obligations, ledger.statuses, other.statuses, ledger.gaps);
  }

  /** Two ledgers built of the same inputs are the same ledger, down to every number, row, status and gap. */
  lemma LedgerUnique(ledger: Ledger, trace: Trace, other: Ledger, otherTrace: Trace, change: ChangeSet,
                     expected: seq<ExpectedDevice>, plans: seq<PluginPlan>, anchor: AnchorSource, inputs: seq<Reason>)
    requires ValidChangeSet(change) && ValidPlans(plans)
    requires forall p | p in plans :: PlanFits(p, AtomIds(change))
    requires LedgerOf(ledger, trace, change, expected, plans, anchor, inputs)
    requires LedgerOf(other, otherTrace, change, expected, plans, anchor, inputs)
    ensures ledger == other
  {
    NumberingUnique(trace.numbered, otherTrace.numbered, AnchorPart(anchor), Flatten(plans));
    NumberedKinds(ledger, trace, change, expected, plans, anchor, inputs);
    SameParts(ledger, trace, other, otherTrace, AllExclusions(plans));
  }

  /** The order devices and plans are given in does not matter: the ledgers built of both orders are one ledger. */
  lemma InputOrderIrrelevant(change: ChangeSet, devices: seq<ExpectedDevice>, otherDevices: seq<ExpectedDevice>,
                             plans: seq<PluginPlan>, otherPlans: seq<PluginPlan>, anchor: AnchorSource,
                             inputs: seq<Reason>, ledger: Ledger, trace: Trace, other: Ledger, otherTrace: Trace)
    requires ValidChangeSet(change) && ValidPlans(plans)
    requires multiset(devices) == multiset(otherDevices) && multiset(plans) == multiset(otherPlans)
    requires forall i, j | 0 <= i < j < |devices| :: devices[i].mac != devices[j].mac
    requires forall p | p in plans :: PlanFits(p, AtomIds(change))
    requires LedgerOf(ledger, trace, change, Prioritized(devices, MacLeq), Prioritized(plans, PluginLeq), anchor, inputs)
    requires LedgerOf(other, otherTrace, change, Prioritized(otherDevices, MacLeq), Prioritized(otherPlans, PluginLeq),
                      anchor, inputs)
    ensures ledger == other
  {
    SameOrder(devices, otherDevices, plans, otherPlans);
    SortedPlansValid(plans, AtomIds(change));
    LedgerUnique(ledger, trace, other, otherTrace, change, Prioritized(devices, MacLeq), Prioritized(plans, PluginLeq),
                 anchor, inputs);
  }

  /** Distinct devices and plans sort the same whatever order they come in. */
  lemma SameOrder(devices: seq<ExpectedDevice>, otherDevices: seq<ExpectedDevice>, plans: seq<PluginPlan>,
                  otherPlans: seq<PluginPlan>)
    requires multiset(devices) == multiset(otherDevices) && multiset(plans) == multiset(otherPlans)
    requires forall i, j | 0 <= i < j < |devices| :: devices[i].mac != devices[j].mac
    requires ValidPlans(plans)
    ensures Prioritized(devices, MacLeq) == Prioritized(otherDevices, MacLeq)
    ensures Prioritized(plans, PluginLeq) == Prioritized(otherPlans, PluginLeq)
  {
    NameOrder();
    forall x, y | x in devices && y in devices && MacLeq(x, y) && MacLeq(y, x)
      ensures x == y
    {
      var i :| 0 <= i < |devices| && devices[i] == x;
      var j :| 0 <= j < |devices| && devices[j] == y;
      assert x.mac == y.mac;
    }
    forall x, y | x in plans && y in plans && PluginLeq(x, y) && PluginLeq(y, x)
      ensures x == y
    {
      var i :| 0 <= i < |plans| && plans[i] == x;
      var j :| 0 <= j < |plans| && plans[j] == y;
      assert x.plugin == y.plugin;
    }
    PriorityIgnoresInputOrder(devices, otherDevices, MacLeq);
    PriorityIgnoresInputOrder(plans, otherPlans, PluginLeq);
  }
}
