/** The coverage ledger: every change atom on every applicable target, and what addresses it. */
module Ledger {
  import opened Contracts
  import opened Ordering
  import opened Change
  import opened Obligations
  import opened Targeting
  import opened RowResolver
  import opened Numbering

  datatype AnchorSource = AuditTime | DeviceTriggerTime | ReceiptTime

  /** A programming error in what the ledger was given, never a data condition. */
  datatype LedgerError = RepeatedDevice | CoreCannotPlan | ForeignItem | UnknownAtom | NoPlan | NotARule

  datatype Ledger = Ledger(
    rows: seq<LedgerRow>,
    obligations: seq<Obligation>,
    statuses: map<nat, Status>,
    planIds: map<Name, map<nat, nat>>,
    gaps: seq<Reason>)

  // Which rows an atom has.

  /** Every atom belongs to an object of the change set, and ids tell atoms apart. */
  ghost predicate ValidChangeSet(change: ChangeSet) {
    && (forall a | a in change.atoms :: HasObject(change.objects, a))
    && (forall i, j | 0 <= i < j < |change.atoms| :: change.atoms[i].id != change.atoms[j].id)
  }

  predicate HasObject(objects: seq<ChangedObject>, atom: Atom) {
    exists o | o in objects :: o.objectId == atom.objectId && o.version == atom.version
  }

  function ObjectFor(objects: seq<ChangedObject>, atom: Atom): (o: ChangedObject)
    requires HasObject(objects, atom)
    ensures o in objects && o.objectId == atom.objectId && o.version == atom.version
  {
    if objects[0].objectId == atom.objectId && objects[0].version == atom.version then objects[0]
    else ObjectFor(objects[1..], atom)
  }

  /** A device object's one target is that device; every other atom applies to every expected device. */
  function RowTargets(change: ChangeSet, atom: Atom, expected: seq<ExpectedDevice>): seq<Target>
    requires HasObject(change.objects, atom)
  {
    var changed := ObjectFor(change.objects, atom);
    if changed.deviceMac.Some? then [Target(changed.deviceMac, changed.siteId, None, None)]
    else seq(|expected|, i requires 0 <= i < |expected| => Target(Some(expected[i].mac), Some(expected[i].site), None, None))
  }

  datatype Placed = Placed(atom: Atom, target: Target)

  function PlaceAtom(change: ChangeSet, atom: Atom, expected: seq<ExpectedDevice>): seq<Placed>
    requires HasObject(change.objects, atom)
  {
    var targets := RowTargets(change, atom, expected);
    seq(|targets|, i requires 0 <= i < |targets| => Placed(atom, targets[i]))
  }

  function Place(change: ChangeSet, atoms: seq<Atom>, expected: seq<ExpectedDevice>): seq<Placed>
    requires forall a | a in atoms :: HasObject(change.objects, a)
  {
    if atoms == [] then [] else PlaceAtom(change, atoms[0], expected) + Place(change, atoms[1..], expected)
  }

  lemma {:induction false} PlaceMembers(change: ChangeSet, atoms: seq<Atom>, expected: seq<ExpectedDevice>)
    requires forall a | a in atoms :: HasObject(change.objects, a)
    ensures forall p | p in Place(change, atoms, expected) ::
              p.atom in atoms && p.target in RowTargets(change, p.atom, expected)
    ensures forall a, t | a in atoms && t in RowTargets(change, a, expected) ::
              Placed(a, t) in Place(change, atoms, expected)
  {
    if atoms != [] {
      PlaceMembers(change, atoms[1..], expected);
      assert forall a :: a in atoms <==> a == atoms[0] || a in atoms[1..];
      PlaceAtomMembers(change, atoms[0], expected);
    }
  }

  lemma PlaceAtomMembers(change: ChangeSet, atom: Atom, expected: seq<ExpectedDevice>)
    requires HasObject(change.objects, atom)
    ensures forall p :: p in PlaceAtom(change, atom, expected)
              <==> p.atom == atom && p.target in RowTargets(change, atom, expected)
  {
    var targets := RowTargets(change, atom, expected);
    forall t | t in targets
      ensures Placed(atom, t) in PlaceAtom(change, atom, expected)
    {
      var i :| 0 <= i < |targets| && targets[i] == t;
      assert PlaceAtom(change, atom, expected)[i] == Placed(atom, t);
    }
  }

  function Untargeted(change: ChangeSet, atoms: seq<Atom>, expected: seq<ExpectedDevice>): seq<nat>
    requires forall a | a in atoms :: HasObject(change.objects, a)
  {
    if atoms == [] then []
    else (if RowTargets(change, atoms[0], expected) == [] then [atoms[0].id] else [])
         + Untargeted(change, atoms[1..], expected)
  }

  lemma {:induction false} UntargetedMeans(change: ChangeSet, atoms: seq<Atom>, expected: seq<ExpectedDevice>)
    requires forall a | a in atoms :: HasObject(change.objects, a)
    ensures Untargeted(change, atoms, expected) == []
       <==> forall a | a in atoms :: RowTargets(change, a, expected) != []
  {
    if atoms != [] {
      UntargetedMeans(change, atoms[1..], expected);
      assert forall a :: a in atoms <==> a == atoms[0] || a in atoms[1..];
    }
  }

  /** One reason covers every atom that sat on no row, or none when they all did. */
  function UntargetedReason(change: ChangeSet, expected: seq<ExpectedDevice>): seq<Reason>
    requires forall a | a in change.atoms :: HasObject(change.objects, a)
  {
    var atoms := Untargeted(change, change.atoms, expected);
    if atoms == [] then [] else [NoExpectedDevice(atoms)]
  }

  // The core's own obligations.

  const NOWHERE: Target := Target(None, None, None, None)

  function AnchorObligation(id: nat): Obligation {
    Obligation(id, CORE, None, [], Precondition, AnchorKind, NOWHERE, None, None)
  }

  function DeploymentObligation(id: nat, target: Target): Obligation {
    Obligation(id, CORE, None, [], Precondition, DeploymentKind, target, None, None)
  }

  function UncoveredObligation(id: nat, row: LedgerRow): Obligation {
    Obligation(id, CORE, Some(row.atom), row.uncovered, Observation, RuleKind, row.target, None, None)
  }

  function InputObligation(id: nat): Obligation {
    Obligation(id, CORE, None, [], Observation, InputKind, NOWHERE, None, None)
  }

  function AnchorPart(anchor: AnchorSource): seq<Obligation> {
    if anchor == ReceiptTime then [AnchorObligation(1)] else []
  }

  function DeploymentPart(before: nat, targets: seq<Target>): seq<Obligation> {
    seq(|targets|, i requires 0 <= i < |targets| => DeploymentObligation(before + i + 1, targets[i]))
  }

  function UncoveredPart(before: nat, rows: seq<LedgerRow>): seq<Obligation> {
    seq(|rows|, i requires 0 <= i < |rows| => UncoveredObligation(before + i + 1, rows[i]))
  }

  function InputPart(before: nat, n: nat): seq<Obligation> {
    seq(n, i requires 0 <= i < n => InputObligation(before + i + 1))
  }

  // The statuses the core already knows.

  /** The core's own verdict against coverage: its anchor, an uncovered row or an input. */
  predicate Condemned(o: Obligation) {
    o.owner == CORE && o.kind != DeploymentKind
  }

  predicate Explains(s: Status, o: Obligation) {
    && s.value == Unsatisfied && s.reason.Some?
    && (o.kind == AnchorKind ==> s.reason == Some(ChangeTimeUnknown))
    && (o.kind == RuleKind && o.atom.Some? ==> s.reason == Some(NoPluginAddressed(o.atom.value, o.paths)))
  }

  /** The core states a status for exactly the obligations it condemns, and each is unsatisfied with its reason. */
  ghost predicate Settled(obligations: seq<Obligation>, statuses: map<nat, Status>) {
    && (forall id | id in statuses :: 1 <= id <= |obligations|)
    && (forall i | 0 <= i < |obligations| :: i + 1 == obligations[i].id)
    && (forall o | o in obligations :: o.id in statuses <==> Condemned(o))
    && (forall o | o in obligations && o.id in statuses :: Explains(statuses[o.id], o))
  }

  lemma SettleCondemned(obligations: seq<Obligation>, statuses: map<nat, Status>, o: Obligation, s: Status)
    requires Settled(obligations, statuses) && o.id == |obligations| + 1 && Condemned(o) && Explains(s, o)
    ensures Settled(obligations + [o], statuses[o.id := s])
  {
  }

  lemma SettleOther(obligations: seq<Obligation>, statuses: map<nat, Status>, o: Obligation)
    requires Settled(obligations, statuses) && o.id == |obligations| + 1 && !Condemned(o)
    ensures Settled(obligations + [o], statuses)
  {
  }

  // Appending the core's obligations.

  /** One unsatisfied core observation per gap reason, numbered after every obligation already there. */
  ghost predicate GapsStated(statuses: map<nat, Status>, before: nat, reasons: seq<Reason>) {
    forall i | 0 <= i < |reasons| :: GapStated(statuses, before + i + 1, reasons[i])
  }

  ghost predicate GapStated(statuses: map<nat, Status>, id: nat, reason: Reason) {
    id in statuses && statuses[id] == Status(Unsatisfied, Some(reason))
  }

  lemma GapsStatedSnoc(statuses: map<nat, Status>, before: nat, reasons: seq<Reason>, reason: Reason)
    requires GapsStated(statuses, before, reasons)
    ensures GapsStated(statuses[before + |reasons| + 1 := Status(Unsatisfied, Some(reason))], before, reasons + [reason])
  {
    var next := statuses[before + |reasons| + 1 := Status(Unsatisfied, Some(reason))];
    var all := reasons + [reason];
    forall i | 0 <= i < |all|
      ensures GapStated(next, before + i + 1, all[i])
    {
      if i < |reasons| {
        assert GapStated(statuses, before + i + 1, reasons[i]);
      }
    }
  }

  method AppendGaps(obligations: seq<Obligation>, statuses: map<nat, Status>, reasons: seq<Reason>)
    returns (allObligations: seq<Obligation>, allStatuses: map<nat, Status>)
    requires Settled(obligations, statuses)
    ensures allObligations == obligations + InputPart(|obligations|, |reasons|)
    ensures Settled(allObligations, allStatuses) && GapsStated(allStatuses, |obligations|, reasons)
    ensures forall id | id in statuses :: id in allStatuses && allStatuses[id] == statuses[id]
  {
    allObligations, allStatuses := obligations, statuses;
    for i := 0 to |reasons|
      invariant allObligations == obligations + InputPart(|obligations|, i)
      invariant Settled(allObligations, allStatuses) && GapsStated(allStatuses, |obligations|, reasons[..i])
      invariant forall id | id in statuses :: id in allStatuses && allStatuses[id] == statuses[id]
    {
      var missing := InputObligation(|allObligations| + 1);
      var status := Status(Unsatisfied, Some(reasons[i]));
      SettleCondemned(allObligations, allStatuses, missing, status);
      Taking(reasons, i);
      GapsStatedSnoc(allStatuses, |obligations|, reasons[..i], reasons[i]);
      InputPartSnoc(|obligations|, i);
      Reassociate(obligations, InputPart(|obligations|, i), [missing]);
      allObligations := allObligations + [missing];
      allStatuses := allStatuses[missing.id := status];
    }
    Taken(reasons);
  }

  lemma InputPartSnoc(before: nat, n: nat)
    ensures InputPart(before, n + 1) == InputPart(before, n) + [InputObligation(before + n + 1)]
  {
  }

  lemma DeploymentPartSnoc(before: nat, targets: seq<Target>, t: Target)
    ensures DeploymentPart(before, targets + [t])
         == DeploymentPart(before, targets) + [DeploymentObligation(before + |targets| + 1, t)]
  {
  }

  lemma UncoveredPartSnoc(before: nat, rows: seq<LedgerRow>, row: LedgerRow)
    ensures UncoveredPart(before, rows + [row])
         == UncoveredPart(before, rows) + [UncoveredObligation(before + |rows| + 1, row)]
  {
  }

  /** A planned obligation's target reaches this row target. */
  ghost predicate Targeted(claims: seq<Claim>, row: Target) {
    exists c | c in claims :: Reaches(c.obligation.target, row)
  }

  /** The row devices some planned obligation reaches, by MAC in order. */
  ghost function TargetedDevices(macs: seq<Name>, targets: map<Name, Target>, claims: seq<Claim>): seq<Target> {
    if macs == [] then []
    else
      var rest := TargetedDevices(macs[..|macs| - 1], targets, claims);
      var mac := macs[|macs| - 1];
      if mac in targets && Targeted(claims, targets[mac]) then rest + [targets[mac]] else rest
  }

  ghost predicate ClaimEntry(e: Entry<nat>, claims: seq<Claim>) {
    exists c | c in claims :: e == Entry(c.obligation.target, c.id)
  }

  ghost predicate IndexesTargets(targeted: ByTarget<nat>, claims: seq<Claim>)
    reads targeted
  {
    && targeted.Valid()
    && forall e :: e in targeted.entries <==> ClaimEntry(e, claims)
  }

  method IndexTargets(claims: seq<Claim>) returns (targeted: ByTarget<nat>)
    ensures fresh(targeted) && IndexesTargets(targeted, claims)
  {
    targeted := new ByTarget<nat>();
    for i := 0 to |claims|
      invariant fresh(targeted) && IndexesTargets(targeted, claims[..i])
    {
      Taking(claims, i);
      targeted.Add(claims[i].obligation.target, claims[i].id);
    }
    Taken(claims);
  }

  lemma TargetedByEntries(entries: seq<Entry<nat>>, claims: seq<Claim>, row: Target)
    requires forall e :: e in entries <==> ClaimEntry(e, claims)
    ensures Scan(entries, row) != [] <==> Targeted(claims, row)
  {
    ScanMembers(entries, row);
    if Scan(entries, row) != [] {
      assert Scan(entries, row)[0] in Scan(entries, row);
    }
    if c :| c in claims && Reaches(c.obligation.target, row) {
      assert ClaimEntry(Entry(c.obligation.target, c.id), claims);
      assert Entry(c.obligation.target, c.id) in Scan(entries, row);
    }
  }

  /** Append a deployment precondition for this device if an obligation targets it. */
  method AddDeployment(obligations: seq<Obligation>, ghost statuses: map<nat, Status>, targeted: ByTarget<nat>,
                       ghost claims: seq<Claim>, target: Target)
    returns (next: seq<Obligation>)
    requires Settled(obligations, statuses) && IndexesTargets(targeted, claims)
    ensures next == obligations
                    + (if Targeted(claims, target) then [DeploymentObligation(|obligations| + 1, target)] else [])
    ensures Settled(next, statuses)
  {
    next := obligations;
    TargetedByEntries(targeted.entries, claims, target);
    if targeted.Reaching(target) != [] {
      SettleOther(obligations, statuses, DeploymentObligation(|obligations| + 1, target));
      next := obligations + [DeploymentObligation(|obligations| + 1, target)];
    }
  }

  ghost predicate DeploymentsSoFar(all: seq<Obligation>, obligations: seq<Obligation>, reached: seq<Target>) {
    all == obligations + DeploymentPart(|obligations|, reached)
  }

  lemma DeploymentsGrow(all: seq<Obligation>, obligations: seq<Obligation>, reached: seq<Target>, target: Target)
    requires DeploymentsSoFar(all, obligations, reached)
    ensures DeploymentsSoFar(all + [DeploymentObligation(|all| + 1, target)], obligations, reached + [target])
    ensures DeploymentsSoFar(all + [], obligations, reached)
  {
    DeploymentPartSnoc(|obligations|, reached, target);
    Reassociate(obligations, DeploymentPart(|obligations|, reached), [DeploymentObligation(|all| + 1, target)]);
    assert all + [] == all;
  }

  lemma TargetedSnoc(macs: seq<Name>, i: nat, targets: map<Name, Target>, claims: seq<Claim>)
    requires i < |macs| && macs[i] in targets
    ensures TargetedDevices(macs[..i + 1], targets, claims)
         == TargetedDevices(macs[..i], targets, claims)
            + (if Targeted(claims, targets[macs[i]]) then [targets[macs[i]]] else [])
  {
    assert macs[..i + 1][..i] == macs[..i];
  }

  /** A deployment precondition for each row device an obligation targets. */
  method AppendDeployments(obligations: seq<Obligation>, ghost statuses: map<nat, Status>, claims: seq<Claim>,
                           macs: seq<Name>, targets: map<Name, Target>)
    returns (all: seq<Obligation>)
    requires Settled(obligations, statuses) && forall mac | mac in macs :: mac in targets
    ensures DeploymentsSoFar(all, obligations, TargetedDevices(macs, targets, claims))
    ensures Settled(all, statuses)
  {
    var targeted := IndexTargets(claims);
    all := obligations;
    for i := 0 to |macs|
      invariant IndexesTargets(targeted, claims)
      invariant DeploymentsSoFar(all, obligations, TargetedDevices(macs[..i], targets, claims))
      invariant Settled(all, statuses)
    {
      var target := targets[macs[i]];
      DeploymentsGrow(all, obligations, TargetedDevices(macs[..i], targets, claims), target);
      TargetedSnoc(macs, i, targets, claims);
      all := AddDeployment(all, statuses, targeted, claims, target);
    }
    Taken(macs);
  }

  predicate IsUncovered(row: LedgerRow) {
    row.resolution == Uncovered
  }

  ghost predicate RowsResolved(rows: seq<LedgerRow>, placed: seq<Placed>, claims: seq<Claim>,
                               exclusions: seq<Exclusion>)
  {
    && |rows| == |placed|
    && forall k {:trigger Resolved(rows[k], placed[k].atom, placed[k].target, claims, exclusions)} | 0 <= k < |rows| ::
         Resolved(rows[k], placed[k].atom, placed[k].target, claims, exclusions)
  }

  ghost predicate UncoveredSoFar(all: seq<Obligation>, obligations: seq<Obligation>, rows: seq<LedgerRow>) {
    all == obligations + UncoveredPart(|obligations|, Filter(rows, IsUncovered))
  }

  lemma UncoveredGrow(all: seq<Obligation>, obligations: seq<Obligation>, rows: seq<LedgerRow>, row: LedgerRow)
    requires UncoveredSoFar(all, obligations, rows)
    ensures IsUncovered(row)
        ==> UncoveredSoFar(all + [UncoveredObligation(|all| + 1, row)], obligations, rows + [row])
    ensures !IsUncovered(row) ==> UncoveredSoFar(all, obligations, rows + [row])
  {
    FilterSnoc(rows, row, IsUncovered);
    var before := Filter(rows, IsUncovered);
    if IsUncovered(row) {
      UncoveredPartSnoc(|obligations|, before, row);
      Reassociate(obligations, UncoveredPart(|obligations|, before), [UncoveredObligation(|all| + 1, row)]);
    } else {
      assert before + [] == before;
    }
  }

  /** Append an unsatisfied observation for the row if nothing covers it. */
  method AddRow(row: LedgerRow, ghost rows: seq<LedgerRow>, ghost before: seq<Obligation>, obligations: seq<Obligation>,
                statuses: map<nat, Status>)
    returns (allObligations: seq<Obligation>, allStatuses: map<nat, Status>)
    requires Settled(obligations, statuses) && UncoveredSoFar(obligations, before, rows)
    ensures Settled(allObligations, allStatuses) && UncoveredSoFar(allObligations, before, rows + [row])
  {
    allObligations, allStatuses := obligations, statuses;
    UncoveredGrow(obligations, before, rows, row);
    if row.resolution == Uncovered {
      var o := UncoveredObligation(|obligations| + 1, row);
      var s := Status(Unsatisfied, Some(NoPluginAddressed(row.atom, row.uncovered)));
      SettleCondemned(obligations, statuses, o, s);
      allObligations, allStatuses := obligations + [o], statuses[o.id := s];
    }
  }

  lemma RowsResolvedSnoc(rows: seq<LedgerRow>, placed: seq<Placed>, claims: seq<Claim>, exclusions: seq<Exclusion>,
                         row: LedgerRow, p: Placed)
    requires RowsResolved(rows, placed, claims, exclusions) && Resolved(row, p.atom, p.target, claims, exclusions)
    ensures RowsResolved(rows + [row], placed + [p], claims, exclusions)
  {
    var r, q := rows + [row], placed + [p];
    forall k | 0 <= k < |r|
      ensures Resolved(r[k], q[k].atom, q[k].target, claims, exclusions)
    {
      assert k < |rows| ==> Resolved(rows[k], placed[k].atom, placed[k].target, claims, exclusions);
    }
  }

  /** Resolve every row, and an unsatisfied observation for each uncovered one. */
  method AppendRows(placed: seq<Placed>, obligations: seq<Obligation>, statuses: map<nat, Status>, claims: seq<Claim>,
                    exclusions: seq<Exclusion>, ghost atoms: map<nat, Atom>)
    returns (rows: seq<LedgerRow>, allObligations: seq<Obligation>, allStatuses: map<nat, Status>)
    requires Settled(obligations, statuses)
    requires forall p | p in placed :: p.atom.id in atoms && atoms[p.atom.id] == p.atom
    ensures RowsResolved(rows, placed, claims, exclusions)
    ensures UncoveredSoFar(allObligations, obligations, rows)
    ensures Settled(allObligations, allStatuses)
  {
    var resolver := new Resolver(claims, exclusions, atoms);
    rows, allObligations, allStatuses := [], obligations, statuses;
    assert UncoveredPart(|obligations|, []) == [];
    for i := 0 to |placed|
      invariant resolver.Valid() && resolver.allClaims == claims && resolver.allExclusions == exclusions
      invariant resolver.atoms == atoms && fresh(resolver)
      invariant RowsResolved(rows, placed[..i], claims, exclusions)
      invariant UncoveredSoFar(allObligations, obligations, rows)
      invariant Settled(allObligations, allStatuses)
    {
      assert placed[i] in placed;
      var row := resolver.Resolve(placed[i].atom, placed[i].target);
      RowsResolvedSnoc(rows, placed[..i], claims, exclusions, row, placed[i]);
      Taking(placed, i);
      allObligations, allStatuses := AddRow(row, rows, obligations, allObligations, allStatuses);
      rows := rows + [row];
    }
    Taken(placed);
  }

  // Building the ledger.

  /** Expected devices by MAC; a device given twice is a programming error. */
  method ExpectedByMac(devices: seq<ExpectedDevice>) returns (r: Result<seq<ExpectedDevice>, LedgerError>)
    ensures r.Err? <==> exists i, j :: 0 <= i < j < |devices| && devices[i].mac == devices[j].mac
    ensures r.Ok? ==> r.value == Prioritized(devices, MacLeq)
  {
    var seen: set<Name> := {};
    for i := 0 to |devices|
      invariant seen == set k | 0 <= k < i :: devices[k].mac
      invariant forall k, l | 0 <= k < l < i :: devices[k].mac != devices[l].mac
    {
      if devices[i].mac in seen {
        return Err(RepeatedDevice);
      }
      seen := seen + {devices[i].mac};
    }
    r := Ok(Prioritized(devices, MacLeq));
  }

  predicate MacLeq(a: ExpectedDevice, b: ExpectedDevice) {
    NameLeq(a.mac, b.mac)
  }

  predicate PluginLeq(a: PluginPlan, b: PluginPlan) {
    NameLeq(a.plugin, b.plugin)
  }

  /** Every item of the plan is its plug-in's own and names an atom of this change. */
  predicate PlanFits(p: PluginPlan, atoms: set<nat>) {
    && p.plugin != CORE
    && (forall o | o in p.plan.obligations :: o.owner == p.plugin && o.atom.Some? && o.atom.value in atoms)
    && (forall e | e in p.plan.exclusions :: e.owner == p.plugin && e.atom in atoms)
  }

  function ItemError(plugin: Name, owner: Name, atom: Option<nat>, atoms: set<nat>): Option<LedgerError> {
    if owner != plugin then Some(ForeignItem)
    else if atom.None? || atom.value !in atoms then Some(UnknownAtom)
    else None
  }

  function ObligationsError(plugin: Name, obligations: seq<Obligation>, atoms: set<nat>): (e: Option<LedgerError>)
    ensures e.None? <==> forall o | o in obligations :: o.owner == plugin && o.atom.Some? && o.atom.value in atoms
  {
    if obligations == [] then None
    else
      var first := ItemError(plugin, obligations[0].owner, obligations[0].atom, atoms);
      assert forall o :: o in obligations <==> o == obligations[0] || o in obligations[1..];
      if first.Some? then first else ObligationsError(plugin, obligations[1..], atoms)
  }

  function ExclusionsError(plugin: Name, exclusions: seq<Exclusion>, atoms: set<nat>): (e: Option<LedgerError>)
    ensures e.None? <==> forall x | x in exclusions :: x.owner == plugin && x.atom in atoms
  {
    if exclusions == [] then None
    else
      var first := ItemError(plugin, exclusions[0].owner, Some(exclusions[0].atom), atoms);
      assert forall x :: x in exclusions <==> x == exclusions[0] || x in exclusions[1..];
      if first.Some? then first else ExclusionsError(plugin, exclusions[1..], atoms)
  }

  /** The first way the plans break the ledger's contract. */
  function PlansError(plans: seq<PluginPlan>, atoms: set<nat>): (e: Option<LedgerError>)
    ensures e.None? <==> forall p | p in plans :: PlanFits(p, atoms)
  {
    if plans == [] then None
    else
      var p := plans[0];
      assert p in plans;
      var obligations := ObligationsError(p.plugin, p.plan.obligations, atoms);
      var exclusions := ExclusionsError(p.plugin, p.plan.exclusions, atoms);
      assert forall q :: q in plans <==> q == plans[0] || q in plans[1..];
      if p.plugin == CORE then Some(CoreCannotPlan)
      else if obligations.Some? then obligations
      else if exclusions.Some? then exclusions
      else PlansError(plans[1..], atoms)
  }

  function AllExclusions(plans: seq<PluginPlan>): seq<Exclusion> {
    if plans == [] then [] else plans[0].plan.exclusions + AllExclusions(plans[1..])
  }

  function AtomIds(change: ChangeSet): set<nat> {
    set a | a in change.atoms :: a.id
  }

  function TargetsOf(placed: seq<Placed>): seq<Target> {
    seq(|placed|, i requires 0 <= i < |placed| => placed[i].target)
  }

  /** What building went through: the numbered plans, the rows to resolve and the row devices by MAC. */
  datatype Trace = Trace(numbered: State, placed: seq<Placed>, macs: seq<Name>)

  ghost predicate MacsOf(macs: seq<Name>, placed: seq<Placed>) {
    Ascending(macs) && forall mac :: mac in macs <==> mac in LastTargets(TargetsOf(placed))
  }

  /** The ledger is these parts: the numbered plans after the anchor, a deployment precondition for each targeted
      device, an observation for each uncovered row, and one for each gap. */
  ghost predicate Assembled(ledger: Ledger, trace: Trace, exclusions: seq<Exclusion>) {
    var numbered := trace.numbered.obligations;
    var reached := TargetedDevices(trace.macs, LastTargets(TargetsOf(trace.placed)), trace.numbered.claims);
    var uncovered := Filter(ledger.rows, IsUncovered);
    var deployed := numbered + DeploymentPart(|numbered|, reached);
    var observed := deployed + UncoveredPart(|deployed|, uncovered);
    && RowsResolved(ledger.rows, trace.placed, trace.numbered.claims, exclusions)
    && MacsOf(trace.macs, trace.placed)
    && ledger.obligations == observed + InputPart(|observed|, |ledger.gaps|)
    && Settled(ledger.obligations, ledger.statuses)
    && GapsStated(ledger.statuses, |observed|, ledger.gaps)
  }

  /** A ledger built of these inputs, with devices and plans in their order. */
  ghost predicate LedgerOf(ledger: Ledger, trace: Trace, change: ChangeSet, expected: seq<ExpectedDevice>,
                           plans: seq<PluginPlan>, anchor: AnchorSource, inputs: seq<Reason>)
    requires ValidChangeSet(change)
  {
    && Numbered(trace.numbered, AnchorPart(anchor), Flatten(plans)) && trace.numbered.ids.Keys == PluginsOf(plans)
    && trace.placed == Place(change, change.atoms, expected)
    && ledger.planIds == trace.numbered.ids
    && ledger.gaps == inputs + UntargetedReason(change, expected)
    && Assembled(ledger, trace, AllExclusions(plans))
  }

  /** The atoms by id. */
  ghost function AtomMap(atoms: seq<Atom>): map<nat, Atom> {
    if atoms == [] then map[] else AtomMap(atoms[1..])[atoms[0].id := atoms[0]]
  }

  lemma {:induction false} AtomMapHolds(atoms: seq<Atom>)
    requires forall i, j | 0 <= i < j < |atoms| :: atoms[i].id != atoms[j].id
    ensures forall a | a in atoms :: a.id in AtomMap(atoms) && AtomMap(atoms)[a.id] == a
  {
    if atoms != [] {
      AtomMapHolds(atoms[1..]);
      assert forall k | 0 <= k < |atoms[1..]| :: atoms[1..][k] == atoms[k + 1] && atoms[0].id != atoms[k + 1].id;
    }
  }

  /** The numbered plans hold nothing the core condemns but its anchor. */
  lemma NumberedSettled(s: State, anchor: AnchorSource, plans: seq<PluginPlan>, atoms: set<nat>)
    requires Numbered(s, AnchorPart(anchor), Flatten(plans))
    requires forall p | p in plans :: PlanFits(p, atoms)
    ensures Settled(s.obligations,
                    if anchor == ReceiptTime then map[1 := Status(Unsatisfied, Some(ChangeTimeUnknown))] else map[])
  {
    var base := AnchorPart(anchor);
    forall i | |base| <= i < |s.obligations|
      ensures !Condemned(s.obligations[i])
    {
      PlannedByPlugin(s, base, plans, i, atoms);
    }
    assert forall i | 0 <= i < |base| :: s.obligations[i] == base[i];
  }

  /** Every obligation after the anchor is one plug-in's, as planned but for its number and policy. */
  lemma PlannedByPlugin(s: State, base: seq<Obligation>, plans: seq<PluginPlan>, i: nat, atoms: set<nat>)
    requires Numbered(s, base, Flatten(plans)) && |base| <= i < |s.obligations|
    requires forall p | p in plans :: PlanFits(p, atoms)
    ensures s.obligations[i].owner != CORE
    ensures exists p, o :: p in plans && o in p.plan.obligations && s.obligations[i] == o.(id := i + 1, policy := s.obligations[i].policy)
  {
    FlattenMembers(plans);
    assert FromPlan(s.obligations[i], s.claims);
    var j :| 0 <= j < |s.claims| && StoredAs(s.obligations[i], s.claims, j);
    assert s.claims[j].obligation == Flatten(plans)[j].obligation && Flatten(plans)[j] in Flatten(plans);
    var p :| p in plans && p.plugin == Flatten(plans)[j].plugin && Flatten(plans)[j].obligation in p.plan.obligations;
    assert PlanFits(p, atoms);
  }

  /** Resolve every atom-target row and number every obligation. */
  method BuildLedger(change: ChangeSet, devices: seq<ExpectedDevice>, plans: seq<PluginPlan>, anchor: AnchorSource,
                     inputs: seq<Reason>)
    returns (r: Result<Ledger, LedgerError>, ghost trace: Trace)
    requires ValidChangeSet(change) && ValidPlans(plans)
    ensures r.Err? <==> || (exists i, j :: 0 <= i < j < |devices| && devices[i].mac == devices[j].mac)
                        || (exists p :: p in plans && !PlanFits(p, AtomIds(change)))
    ensures r.Ok? ==> LedgerOf(r.value, trace, change, Prioritized(devices, MacLeq), Prioritized(plans, PluginLeq),
                               anchor, inputs)
  {
    trace := Trace(State([], [], map[], map[]), [], []);
    var expected := ExpectedByMac(devices);
    if expected.Err? {
      return Err(expected.error), trace;
    }
    var error := PlansError(plans, AtomIds(change));
    if error.Some? {
      return Err(error.value), trace;
    }
    var ledger;
    ledger, trace := Assemble(change, expected.value, plans, anchor, inputs);
    r := Ok(ledger);
  }

  lemma SortedPlansValid(plans: seq<PluginPlan>, atoms: set<nat>)
    requires ValidPlans(plans) && forall p | p in plans :: PlanFits(p, atoms)
    ensures ValidPlans(Prioritized(plans, PluginLeq))
    ensures forall p | p in Prioritized(plans, PluginLeq) :: PlanFits(p, atoms)
  {
    SortedMembers(plans, PluginLeq);
    var sorted := Prioritized(plans, PluginLeq);
    forall i, j | 0 <= i < j < |sorted|
      ensures sorted[i].plugin != sorted[j].plugin
    {
      assert sorted[i] != sorted[j];
      assert sorted[i] in plans && sorted[j] in plans;
      var k :| 0 <= k < |plans| && plans[k] == sorted[i];
      var l :| 0 <= l < |plans| && plans[l] == sorted[j];
      if k < l {
        assert plans[k].plugin != plans[l].plugin;
      } else {
        assert k != l;
        assert plans[l].plugin != plans[k].plugin;
      }
    }
  }

  method Assemble(change: ChangeSet, expected: seq<ExpectedDevice>, plans: seq<PluginPlan>, anchor: AnchorSource,
                  inputs: seq<Reason>)
    returns (ledger: Ledger, ghost trace: Trace)
    requires ValidChangeSet(change) && ValidPlans(plans)
    requires forall p | p in plans :: PlanFits(p, AtomIds(change))
    ensures LedgerOf(ledger, trace, change, expected, Prioritized(plans, PluginLeq), anchor, inputs)
  {
    var sorted := Prioritized(plans, PluginLeq);
    SortedPlansValid(plans, AtomIds(change));
    var statuses: map<nat, Status> :=
      if anchor == ReceiptTime then map[1 := Status(Unsatisfied, Some(ChangeTimeUnknown))] else map[];
    var numbered := NumberPlans(sorted, AnchorPart(anchor));
    NumberedSettled(numbered, anchor, sorted, AtomIds(change));
    var placed := Place(change, change.atoms, expected);
    PlaceMembers(change, change.atoms, expected);
    AtomMapHolds(change.atoms);
    var devices := new RowDevices(TargetsOf(placed));
    trace := Trace(numbered, placed, devices.macs);
    var deployed := AppendDeployments(numbered.obligations, statuses, numbered.claims, devices.macs, devices.targets);
    var rows, observed, observedStatuses :=
      AppendRows(placed, deployed, statuses, numbered.claims, AllExclusions(sorted), AtomMap(change.atoms));
    var gaps := inputs + UntargetedReason(change, expected);
    var obligations, allStatuses := AppendGaps(observed, observedStatuses, gaps);
    ledger := Ledger(rows, obligations, allStatuses, numbered.ids, gaps);
  }
}
