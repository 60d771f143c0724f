/** Replaying each row device's recorded monitoring session, and resolving every monitoring obligation over the
    devices it reaches. */
module MonitoringReplay {
  import opened Contracts
  import opened Ordering
  import opened Obligations
  import opened Targeting
  import opened Numbering
  import opened MonitoringChecks

  // What a device's obligations select.

  datatype Requirement = Requirement(id: nat, policy: EmptyPolicy)

  datatype Selection = Selection(
    site: Option<Name>,
    checks: map<Name, seq<Requirement>>,
    incidentTypes: set<Name>,
    findingKinds: set<Name>)

  const NOTHING_SELECTED: Selection := Selection(None, map[], {}, {})

  /** What the plans of every plug-in whose obligation this is select. */
  datatype Owned = Owned(incidentTypes: set<Name>, findingKinds: set<Name>)

  predicate Owns(planIds: map<Name, map<nat, nat>>, plugin: Name, id: nat) {
    plugin in planIds && id in planIds[plugin].Values
  }

  function OwnedBy(plans: seq<PluginPlan>, planIds: map<Name, map<nat, nat>>, id: nat): Owned {
    Owned(set p, t | p in plans && Owns(planIds, p.plugin, id) && t in p.plan.incidentTypes :: t,
          set p, k | p in plans && Owns(planIds, p.plugin, id) && k in p.plan.findingKinds :: k)
  }

  function Requirements(selection: Selection, metric: Name): seq<Requirement> {
    if metric in selection.checks then selection.checks[metric] else []
  }

  predicate IsCheck(o: Obligation) {
    o.kind == MonitoringKind && o.metric.Some? && o.policy.Some?
  }

  /** The selection with one more obligation reaching the device. */
  function Select(selection: Selection, site: Option<Name>, o: Obligation, owned: Owned): Selection {
    Selection(
      site,
      if IsCheck(o)
      then selection.checks[o.metric.value := Requirements(selection, o.metric.value) + [Requirement(o.id, o.policy.value)]]
      else selection.checks,
      selection.incidentTypes + owned.incidentTypes,
      selection.findingKinds + owned.findingKinds)
  }

  // The direct definition: scan every obligation for one device.

  predicate ReachesDevice(o: Obligation, targets: map<Name, Target>, mac: Name) {
    o.owner != CORE && mac in targets && Reaches(o.target, targets[mac])
  }

  ghost function SelectionOf(obligations: seq<Obligation>, targets: map<Name, Target>, plans: seq<PluginPlan>,
                             planIds: map<Name, map<nat, nat>>, mac: Name): Option<Selection>
  {
    if obligations == [] then None
    else
      var last := obligations[|obligations| - 1];
      var before := SelectionOf(obligations[..|obligations| - 1], targets, plans, planIds, mac);
      if ReachesDevice(last, targets, mac)
      then Some(Select(if before.Some? then before.value else NOTHING_SELECTED, targets[mac].site, last,
                       OwnedBy(plans, planIds, last.id)))
      else before
  }

  function Lookup(selections: map<Name, Selection>, mac: Name): Option<Selection> {
    if mac in selections then Some(selections[mac]) else None
  }

  ghost predicate SelectionsOf(selections: map<Name, Selection>, obligations: seq<Obligation>,
                               targets: map<Name, Target>, plans: seq<PluginPlan>, planIds: map<Name, map<nat, nat>>)
  {
    forall mac: Name :: Lookup(selections, mac) == SelectionOf(obligations, targets, plans, planIds, mac)
  }

  /** Each plug-in obligation's reach: the row devices its target reaches. */
  ghost predicate ReachOf(reach: map<nat, seq<Name>>, obligations: seq<Obligation>, devices: RowDevices)
    requires devices.Valid()
  {
    && (forall o | o in obligations && o.owner != CORE :: o.id in reach && reach[o.id] == devices.Reached(o.target))
    && (forall id {:trigger OwnedId(obligations, id)} | id in reach :: OwnedId(obligations, id))
  }

  /** The number of a plug-in's obligation. */
  ghost predicate OwnedId(obligations: seq<Obligation>, id: nat) {
    exists o :: o in obligations && o.owner != CORE && o.id == id
  }

  lemma SelectedStep(selections: map<Name, Selection>, next: map<Name, Selection>, o: Obligation, reached: seq<Name>,
                     targets: map<Name, Target>, owned: Owned, mac: Name)
    requires forall other: Name :: Lookup(next, other) == Selected(selections, o, reached, targets, owned, other)
    requires mac !in reached && mac in targets
    ensures var selection := if mac in next then next[mac] else NOTHING_SELECTED;
            var after := next[mac := Select(selection, targets[mac].site, o, owned)];
            forall other: Name ::
              Lookup(after, other) == Selected(selections, o, reached + [mac], targets, owned, other)
  {
    assert Lookup(next, mac) == Lookup(selections, mac);
    assert forall other :: other in reached + [mac] <==> other in reached || other == mac;
    var selection := if mac in next then next[mac] else NOTHING_SELECTED;
    var after := next[mac := Select(selection, targets[mac].site, o, owned)];
    forall other: Name
      ensures Lookup(after, other) == Selected(selections, o, reached + [mac], targets, owned, other)
    {
      assert Lookup(next, other) == Selected(selections, o, reached, targets, owned, other);
    }
  }

  /** Add one obligation to the selection of every row device it reaches. */
  method SelectReached(selections: map<Name, Selection>, o: Obligation, reached: seq<Name>, targets: map<Name, Target>,
                       owned: Owned)
    returns (next: map<Name, Selection>)
    requires Ascending(reached) && forall mac | mac in reached :: mac in targets
    ensures forall mac: Name :: Lookup(next, mac) == Selected(selections, o, reached, targets, owned, mac)
  {
    next := selections;
    for i := 0 to |reached|
      invariant forall mac: Name :: Lookup(next, mac) == Selected(selections, o, reached[..i], targets, owned, mac)
    {
      var mac := reached[i];
      assert mac !in reached[..i];
      SelectedStep(selections, next, o, reached[..i], targets, owned, mac);
      Taking(reached, i);
      var selection := if mac in next then next[mac] else NOTHING_SELECTED;
      next := next[mac := Select(selection, targets[mac].site, o, owned)];
    }
    Taken(reached);
  }

  function Selected(selections: map<Name, Selection>, o: Obligation, reached: seq<Name>, targets: map<Name, Target>,
                    owned: Owned, mac: Name): Option<Selection>
  {
    if mac in reached && mac in targets
    then Some(Select(if mac in selections then selections[mac] else NOTHING_SELECTED, targets[mac].site, o, owned))
    else Lookup(selections, mac)
  }

  lemma SelectionStep(selections: map<Name, Selection>, next: map<Name, Selection>, obligations: seq<Obligation>,
                      o: Obligation, devices: RowDevices, plans: seq<PluginPlan>, planIds: map<Name, map<nat, nat>>)
    requires devices.Valid() && o.owner != CORE
    requires SelectionsOf(selections, obligations, devices.targets, plans, planIds)
    requires forall mac: Name :: Lookup(next, mac)
               == Selected(selections, o, devices.Reached(o.target), devices.targets, OwnedBy(plans, planIds, o.id), mac)
    ensures SelectionsOf(next, obligations + [o], devices.targets, plans, planIds)
  {
    FilterMembers(devices.macs, ReachedBy(devices.targets, o.target));
    assert (obligations + [o])[..|obligations|] == obligations;
    forall mac: Name
      ensures Lookup(next, mac) == SelectionOf(obligations + [o], devices.targets, plans, planIds, mac)
    {
      assert Lookup(selections, mac) == SelectionOf(obligations, devices.targets, plans, planIds, mac);
      assert mac in devices.Reached(o.target) <==> ReachesDevice(o, devices.targets, mac);
    }
  }

  lemma CoreSelectsNothing(selections: map<Name, Selection>, obligations: seq<Obligation>, o: Obligation,
                           targets: map<Name, Target>, plans: seq<PluginPlan>, planIds: map<Name, map<nat, nat>>)
    requires SelectionsOf(selections, obligations, targets, plans, planIds) && o.owner == CORE
    ensures SelectionsOf(selections, obligations + [o], targets, plans, planIds)
  {
    assert (obligations + [o])[..|obligations|] == obligations;
    forall mac: Name
      ensures Lookup(selections, mac) == SelectionOf(obligations + [o], targets, plans, planIds, mac)
    {
      assert Lookup(selections, mac) == SelectionOf(obligations, targets, plans, planIds, mac);
    }
  }

  lemma ConsAscending(name: Name, names: seq<Name>)
    requires Ascending(names) && forall other | other in names :: NameBefore(name, other)
    ensures Ascending([name] + names)
  {
    var all := [name] + names;
    forall i, j | 0 <= i < j < |all|
      ensures NameBefore(all[i], all[j])
    {
      assert all[j] == names[j - 1] && names[j - 1] in names;
      if i > 0 {
        assert all[i] == names[i - 1];
      }
    }
  }

  lemma {:induction false} FilterAscends(macs: seq<Name>, keep: Name -> bool)
    requires Ascending(macs)
    ensures Ascending(Filter(macs, keep))
  {
    if macs != [] {
      assert forall k | 0 <= k < |macs[1..]| :: macs[1..][k] == macs[k + 1];
      FilterAscends(macs[1..], keep);
      FilterMembers(macs[1..], keep);
      if keep(macs[0]) {
        ConsAscending(macs[0], Filter(macs[1..], keep));
      }
    }
  }

  /** Each row device a plug-in obligation reaches with its selection, and the row devices each obligation reaches. */
  method Selections(obligations: seq<Obligation>, devices: RowDevices, plans: seq<PluginPlan>,
                    planIds: map<Name, map<nat, nat>>)
    returns (selections: map<Name, Selection>, reach: map<nat, seq<Name>>)
    requires devices.Valid() && Consecutive(obligations)
    ensures SelectionsOf(selections, obligations, devices.targets, plans, planIds)
    ensures ReachOf(reach, obligations, devices)
  {
    selections, reach := map[], map[];
    for i := 0 to |obligations|
      invariant SelectionsOf(selections, obligations[..i], devices.targets, plans, planIds)
      invariant ReachOf(reach, obligations[..i], devices)
      invariant forall id | id in reach :: id <= i
    {
      var o := obligations[i];
      Taking(obligations, i);
      if o.owner != CORE {
        var reached := devices.Reached(o.target);
        FilterAscends(devices.macs, ReachedBy(devices.targets, o.target));
        FilterMembers(devices.macs, ReachedBy(devices.targets, o.target));
        var next := SelectReached(selections, o, reached, devices.targets, OwnedBy(plans, planIds, o.id));
        SelectionStep(selections, next, obligations[..i], o, devices, plans, planIds);
        ReachStep(reach, obligations[..i], o, devices);
        selections := next;
        reach := reach[o.id := reached];
      } else {
        CoreSelectsNothing(selections, obligations[..i], o, devices.targets, plans, planIds);
        CoreReachesNothing(reach, obligations[..i], o, devices);
      }
    }
    Taken(obligations);
  }

  lemma CoreReachesNothing(reach: map<nat, seq<Name>>, obligations: seq<Obligation>, o: Obligation, devices: RowDevices)
    requires devices.Valid() && ReachOf(reach, obligations, devices) && o.owner == CORE
    ensures ReachOf(reach, obligations + [o], devices)
  {
    assert forall p :: p in obligations + [o] <==> p in obligations || p == o;
    forall id | id in reach
      ensures OwnedId(obligations + [o], id)
    {
      assert OwnedId(obligations, id);
    }
  }

  lemma ReachStep(reach: map<nat, seq<Name>>, obligations: seq<Obligation>, o: Obligation, devices: RowDevices)
    requires devices.Valid() && ReachOf(reach, obligations, devices) && o.owner != CORE
    requires forall p | p in obligations :: p.id != o.id
    ensures ReachOf(reach[o.id := devices.Reached(o.target)], obligations + [o], devices)
  {
    var next := reach[o.id := devices.Reached(o.target)];
    var all := obligations + [o];
    assert forall p :: p in all <==> p in obligations || p == o;
    forall id | id in next
      ensures OwnedId(all, id)
    {
      if id != o.id {
        assert OwnedId(obligations, id);
      }
    }
  }

  // What a selection holds.

  /** The obligation asks this check of the device. */
  predicate Checks(o: Obligation, targets: map<Name, Target>, mac: Name) {
    ReachesDevice(o, targets, mac) && IsCheck(o)
  }

  ghost predicate Requires(selection: Option<Selection>, metric: Name, r: Requirement) {
    selection.Some? && r in Requirements(selection.value, metric)
  }

  /** Some obligation asks the device for this check. */
  ghost predicate Asked(obligations: seq<Obligation>, targets: map<Name, Target>, mac: Name, metric: Name, r: Requirement) {
    exists o :: o in obligations && Checks(o, targets, mac) && o.metric == Some(metric)
                && r == Requirement(o.id, o.policy.value)
  }

  lemma AskedSnoc(before: seq<Obligation>, o: Obligation, targets: map<Name, Target>, mac: Name, metric: Name,
                  r: Requirement)
    ensures Asked(before + [o], targets, mac, metric, r)
       <==> Asked(before, targets, mac, metric, r)
            || (Checks(o, targets, mac) && o.metric == Some(metric) && r == Requirement(o.id, o.policy.value))
  {
    assert forall p :: p in before + [o] <==> p in before || p == o;
  }

  /** A device is selected exactly when some plug-in obligation reaches it, and its checks are exactly those asked. */
  lemma {:induction false} SelectionHolds(obligations: seq<Obligation>, targets: map<Name, Target>,
                                          plans: seq<PluginPlan>, planIds: map<Name, map<nat, nat>>, mac: Name)
    ensures SelectionOf(obligations, targets, plans, planIds, mac).Some?
       <==> exists o :: o in obligations && ReachesDevice(o, targets, mac)
    ensures forall metric, r ::
              Requires(SelectionOf(obligations, targets, plans, planIds, mac), metric, r)
              <==> Asked(obligations, targets, mac, metric, r)
  {
    if obligations != [] {
      var before := obligations[..|obligations| - 1];
      var last := obligations[|obligations| - 1];
      SelectionHolds(before, targets, plans, planIds, mac);
      assert obligations == before + [last];
      assert forall o :: o in obligations <==> o in before || o == last;
      SelectHolds(SelectionOf(before, targets, plans, planIds, mac), targets, last, OwnedBy(plans, planIds, last.id), mac);
      forall metric, r {
        AskedSnoc(before, last, targets, mac, metric, r);
      }
    }
  }

  lemma SelectHolds(before: Option<Selection>, targets: map<Name, Target>, o: Obligation, owned: Owned, mac: Name)
    ensures var selection := if before.Some? then before.value else NOTHING_SELECTED;
            var after := Some(Select(selection, if mac in targets then targets[mac].site else None, o, owned));
            forall metric, r ::
              Requires(after, metric, r)
              <==> Requires(before, metric, r)
                   || (IsCheck(o) && o.metric == Some(metric) && r == Requirement(o.id, o.policy.value))
  {
  }

  /** A selected device keeps its row's site, and looks for what the plug-ins of the obligations reaching it look for. */
  lemma {:induction false} SelectionFollows(obligations: seq<Obligation>, targets: map<Name, Target>,
                                            plans: seq<PluginPlan>, planIds: map<Name, map<nat, nat>>, mac: Name)
    ensures var selection := SelectionOf(obligations, targets, plans, planIds, mac);
            selection.Some? ==>
              && mac in targets && selection.value.site == targets[mac].site
              && (forall t :: t in selection.value.incidentTypes
                              <==> LooksForIncident(obligations, targets, plans, planIds, mac, t))
              && (forall k :: k in selection.value.findingKinds
                              <==> LooksForFinding(obligations, targets, plans, planIds, mac, k))
  {
    if obligations != [] {
      var before, last := obligations[..|obligations| - 1], obligations[|obligations| - 1];
      SelectionFollows(before, targets, plans, planIds, mac);
      SelectionHolds(before, targets, plans, planIds, mac);
      assert obligations == before + [last];
      assert forall o :: o in obligations <==> o in before || o == last;
      forall plugin
        ensures Owns(planIds, plugin, last.id) <==> NumberedFor(planIds, plugin, last.id)
      {
        OwnsMeans(planIds, plugin, last.id);
      }
    }
  }

  /** The plug-in planned the obligation: one of its own ids maps to this number. */
  ghost predicate NumberedFor(planIds: map<Name, map<nat, nat>>, plugin: Name, id: nat) {
    plugin in planIds && exists local :: local in planIds[plugin] && planIds[plugin][local] == id
  }

  lemma OwnsMeans(planIds: map<Name, map<nat, nat>>, plugin: Name, id: nat)
    ensures Owns(planIds, plugin, id) <==> NumberedFor(planIds, plugin, id)
  {
  }

  /** Some obligation reaches the device whose plug-in's plan names this incident type. */
  ghost predicate LooksForIncident(obligations: seq<Obligation>, targets: map<Name, Target>, plans: seq<PluginPlan>,
                                   planIds: map<Name, map<nat, nat>>, mac: Name, t: Name)
  {
    exists o, p :: o in obligations && ReachesDevice(o, targets, mac)
                   && p in plans && NumberedFor(planIds, p.plugin, o.id) && t in p.plan.incidentTypes
  }

  ghost predicate LooksForFinding(obligations: seq<Obligation>, targets: map<Name, Target>, plans: seq<PluginPlan>,
                                  planIds: map<Name, map<nat, nat>>, mac: Name, k: Name)
  {
    exists o, p :: o in obligations && ReachesDevice(o, targets, mac)
                   && p in plans && NumberedFor(planIds, p.plugin, o.id) && k in p.plan.findingKinds
  }
}
