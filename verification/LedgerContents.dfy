/** What a built ledger holds, part by part: where each atom's rows are, and which obligation the core adds for what. */
module LedgerContents {
  import opened Contracts
  import opened Ordering
  import opened Change
  import opened Obligations
  import opened Targeting
  import opened RowResolver
  import opened Numbering
  import opened Ledger
  import opened LedgerTheorems

  // Where the rows are.

  /** The object a change set holds for the atom, the first of its version. */
  ghost predicate ObjectOfAtom(change: ChangeSet, atom: Atom, o: ChangedObject) {
    exists k :: 0 <= k < |change.objects| && change.objects[k] == o && Versioned(o, atom)
                && forall l | 0 <= l < k :: !Versioned(change.objects[l], atom)
  }

  predicate Versioned(o: ChangedObject, atom: Atom) {
    o.objectId == atom.objectId && o.version == atom.version
  }

  lemma {:induction false} ObjectFound(objects: seq<ChangedObject>, atom: Atom) returns (k: nat)
    requires HasObject(objects, atom)
    ensures k < |objects| && objects[k] == ObjectFor(objects, atom) && Versioned(objects[k], atom)
    ensures forall l | 0 <= l < k :: !Versioned(objects[l], atom)
  {
    if objects[0].objectId == atom.objectId && objects[0].version == atom.version {
      k := 0;
    } else {
      var rest := ObjectFound(objects[1..], atom);
      k := rest + 1;
    }
  }

  /** A device's own change is judged on that device alone, at the site the object names; any other change on every device
      it reached, each at its own site. */
  lemma RowTargetsExactly(change: ChangeSet, atom: Atom, expected: seq<ExpectedDevice>, t: Target)
    requires HasObject(change.objects, atom)
    ensures exists o :: ObjectOfAtom(change, atom, o) && (t in RowTargets(change, atom, expected) <==> AppliesAt(o, expected, t))
  {
    var k := ObjectFound(change.objects, atom);
    assert ObjectOfAtom(change, atom, change.objects[k]);
    var targets := RowTargets(change, atom, expected);
    if change.objects[k].deviceMac.None? {
      assert |targets| == |expected|;
      forall d | d in expected
        ensures Target(Some(d.mac), Some(d.site), None, None) in targets
      {
        var i :| 0 <= i < |expected| && expected[i] == d;
        assert targets[i] == Target(Some(d.mac), Some(d.site), None, None);
      }
    }
  }

  ghost predicate AppliesAt(o: ChangedObject, expected: seq<ExpectedDevice>, t: Target) {
    && t.port.None? && t.wlan.None?
    && (if o.deviceMac.Some? then t.device == o.deviceMac && t.site == o.siteId
        else exists d :: d in expected && t.device == Some(d.mac) && t.site == Some(d.site))
  }

  // What the core adds.

  /** The core holds this against the ledger: an observation or precondition of its own, unsatisfied for this reason. */
  ghost predicate HeldAgainst(ledger: Ledger, o: Obligation, reason: Reason) {
    && o in ledger.obligations && o.owner == CORE
    && o.id in ledger.statuses && ledger.statuses[o.id] == Status(Unsatisfied, Some(reason))
  }

  /** Every row nothing addresses is held against the ledger by an observation of its own atom, paths and target, which
      names them as the reason. */
  lemma UncoveredRowsHeld(ledger: Ledger, trace: Trace, exclusions: seq<Exclusion>, row: LedgerRow)
    requires Assembled(ledger, trace, exclusions) && row in ledger.rows && row.resolution == Uncovered
    ensures exists o :: HeldAgainst(ledger, o, NoPluginAddressed(row.atom, row.uncovered))
                        && o.atom == Some(row.atom) && o.paths == row.uncovered && o.target == row.target
                        && o.role == Observation && o.kind == RuleKind
  {
    var rows := Filter(ledger.rows, IsUncovered);
    FilterMembers(ledger.rows, IsUncovered);
    var k :| 0 <= k < |rows| && rows[k] == row;
    var n := |trace.numbered.obligations| + |Reached(trace)|;
    var part := UncoveredPart(n, rows);
    var o := part[k];
    Parts(ledger, trace, exclusions);
    assert o in part && o == UncoveredObligation(n + k + 1, row);
    assert o in ledger.obligations && Condemned(o);
    assert o.id in ledger.statuses && Explains(ledger.statuses[o.id], o);
    assert ledger.statuses[o.id] == Status(Unsatisfied, Some(NoPluginAddressed(row.atom, row.uncovered)));
  }

  /** Every gap is held against it by an input observation with the gap as its reason, in the gaps' order. */
  lemma GapsHeld(ledger: Ledger, trace: Trace, exclusions: seq<Exclusion>, k: nat)
    requires Assembled(ledger, trace, exclusions) && k < |ledger.gaps|
    ensures var o := ledger.obligations[|ledger.obligations| - |ledger.gaps| + k];
            && HeldAgainst(ledger, o, ledger.gaps[k]) && o.kind == InputKind && o.role == Observation
            && o.atom.None? && o.paths == []
  {
    var numbered := trace.numbered.obligations;
    var deployed := numbered + DeploymentPart(|numbered|, Reached(trace));
    var observed := deployed + UncoveredPart(|deployed|, Filter(ledger.rows, IsUncovered));
    assert ledger.obligations == observed + InputPart(|observed|, |ledger.gaps|);
    var o := ledger.obligations[|observed| + k];
    assert o == InputObligation(|observed| + k + 1) && o in ledger.obligations;
    assert GapStated(ledger.statuses, |observed| + k + 1, ledger.gaps[k]);
  }

  /** The gaps are what the attempt could not see, in order, and then one for every atom that applies nowhere. */
  lemma GapsExactly(ledger: Ledger, trace: Trace, change: ChangeSet, expected: seq<ExpectedDevice>,
                    plans: seq<PluginPlan>, anchor: AnchorSource, inputs: seq<Reason>)
    requires ValidChangeSet(change) && LedgerOf(ledger, trace, change, expected, plans, anchor, inputs)
    ensures inputs <= ledger.gaps
    ensures if forall a | a in change.atoms :: RowTargets(change, a, expected) != [] then ledger.gaps == inputs
            else |ledger.gaps| == |inputs| + 1 && ledger.gaps[|inputs|].NoExpectedDevice?
                 && forall a | a in change.atoms ::
                      a.id in ledger.gaps[|inputs|].atoms <==> RowTargets(change, a, expected) == []
  {
    UntargetedMeans(change, change.atoms, expected);
    forall a | a in change.atoms {
      UntargetedExactly(change, change.atoms, expected, a);
    }
  }

  lemma {:induction false} UntargetedExactly(change: ChangeSet, atoms: seq<Atom>, expected: seq<ExpectedDevice>, a: Atom)
    requires (forall x | x in atoms :: HasObject(change.objects, x)) && HasObject(change.objects, a)
    requires forall x | x in atoms && x.id == a.id :: x == a
    ensures a in atoms ==> (a.id in Untargeted(change, atoms, expected) <==> RowTargets(change, a, expected) == [])
    ensures a.id in Untargeted(change, atoms, expected) ==> a in atoms
  {
    if atoms != [] {
      UntargetedExactly(change, atoms[1..], expected, a);
    }
  }

  /** Without a change time the ledger starts with the core's anchor, a precondition held unsatisfied for that; with one it
      has no anchor. */
  lemma AnchorHeld(ledger: Ledger, trace: Trace, change: ChangeSet, expected: seq<ExpectedDevice>, plans: seq<PluginPlan>,
                   anchor: AnchorSource, inputs: seq<Reason>)
    requires ValidChangeSet(change) && ValidPlans(plans) && forall p | p in plans :: PlanFits(p, AtomIds(change))
    requires LedgerOf(ledger, trace, change, expected, plans, anchor, inputs)
    ensures if anchor == ReceiptTime
            then ledger.obligations != [] && ledger.obligations[0].kind == AnchorKind
                 && ledger.obligations[0].role == Precondition
                 && HeldAgainst(ledger, ledger.obligations[0], ChangeTimeUnknown)
            else forall o | o in ledger.obligations :: o.kind != AnchorKind
  {
    LedgerShaped(ledger, trace, change, expected, plans, anchor, inputs);
    if anchor == ReceiptTime {
      assert trace.numbered.obligations[0] == AnchorPart(anchor)[0];
      assert ledger.obligations[0] == AnchorObligation(1) && ledger.obligations[0] in ledger.obligations;
      assert Condemned(ledger.obligations[0]) && Explains(ledger.statuses[1], ledger.obligations[0]);
    } else {
      forall o | o in ledger.obligations
        ensures o.kind != AnchorKind
      {
        assert ValidObligation(o);
        assert o.kind == AnchorKind ==> Condemned(o);
      }
    }
  }

  /** An obligation or exclusion that names a device reaches that device, at its site if it names one; one that names only
      a site reaches every device of the site; and one that names neither reaches none. */
  lemma ReachesExactly(target: Target, row: Target)
    ensures Reaches(target, row)
       <==> (target.device.Some? || target.site.Some?)
            && (target.device.Some? ==> row.device == target.device)
            && (target.site.Some? ==> row.site == target.site)
  {
  }

  /** The plans' exclusions, those of every plan and no others. */
  lemma ExclusionsExactly(plans: seq<PluginPlan>, e: Exclusion)
    ensures e in AllExclusions(plans) <==> exists p :: p in plans && e in p.plan.exclusions
  {
    ExclusionsFromPlans(plans, e);
  }

  /** A status reported for an obligation the core does not judge itself stands; one nobody reported is unsatisfied. */
  lemma StatusesExactly(ledger: Ledger, reported: map<nat, Status>, o: Obligation)
    requires o in ledger.obligations
    ensures var out := ResolveStatuses(ledger, reported);
            && o.id in out
            && (o.id in ledger.statuses ==> out[o.id] == ledger.statuses[o.id])
            && (o.id !in ledger.statuses && o.id in reported ==> out[o.id] == reported[o.id])
            && (o.id !in ledger.statuses && o.id !in reported ==> out[o.id] == Status(Unsatisfied, Some(NoStatusReported)))
  {
  }
}
