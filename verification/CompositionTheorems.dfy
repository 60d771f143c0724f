/** What a verdict says of devices and sources: the devices it can list are exactly those that warn by themselves or by
    what a source says of them, and the sources it names are exactly those that set its bands. */
module CompositionTheorems {
  import opened Contracts
  import opened Ordering
  import opened Conclusions
  import opened Evidence
  import opened Composition

  // Devices.

  /** Some source that counts names this device with this severity, and this is its own current. */
  ghost predicate Names(i: Inputs, mac: Name, severity: Band, current: Band) {
    || (i.monitoring.Some? && NamedIn(i.monitoring.value.devices, mac, severity) && i.monitoring.value.current == current)
    || (i.deployment.Some? && NamedIn(i.deployment.value.devices, mac, severity) && i.deployment.value.current == current)
    || (exists r :: r in i.rules && NamedIn(r.conclusion.devices, mac, severity) && r.conclusion.current == current)
    || (ReportCounts(i) && NamedIn(i.agent.value.devices, mac, severity)
        && current == if i.agent.value.current.Some? then i.agent.value.current.value else NoImpact)
  }

  ghost predicate NamedIn(devices: seq<DeviceImpact>, mac: Name, severity: Band) {
    exists d :: d in devices && d.mac == mac && d.severity == severity
  }

  lemma {:induction false} ClaimsCome(devices: seq<DeviceImpact>, current: Band, c: Claim)
    ensures c in ClaimsOf(devices, current) <==> NamedIn(devices, c.mac, c.severity) && c.sourceCurrent == current
  {
    if devices != [] {
      ClaimsCome(devices[1..], current, c);
      assert forall d :: d in devices <==> d == devices[0] || d in devices[1..];
    }
  }

  lemma {:induction false} RuleClaimsCome(rules: seq<RuleConclusion>, c: Claim)
    ensures c in RuleClaims(rules)
       <==> exists r :: r in rules && NamedIn(r.conclusion.devices, c.mac, c.severity)
                        && r.conclusion.current == c.sourceCurrent
  {
    if rules != [] {
      ClaimsCome(rules[0].conclusion.devices, rules[0].conclusion.current, c);
      RuleClaimsCome(rules[1..], c);
      assert forall r :: r in rules <==> r == rules[0] || r in rules[1..];
    }
  }

  /** The claims are exactly what the sources that count say of devices. */
  lemma ClaimsExactly(i: Inputs, c: Claim)
    ensures c in AllClaims(i) <==> Names(i, c.mac, c.severity, c.sourceCurrent)
  {
    ContributesMeans(i);
    SortedMembers(i.rules, PluginLeq);
    RuleClaimsCome(Prioritized(i.rules, PluginLeq), c);
    if i.monitoring.Some? {
      ClaimsCome(i.monitoring.value.devices, i.monitoring.value.current, c);
    }
    if i.deployment.Some? {
      ClaimsCome(i.deployment.value.devices, i.deployment.value.current, c);
    }
    if ReportCounts(i) {
      ClaimsCome(i.agent.value.devices, if i.agent.value.current.Some? then i.agent.value.current.value else NoImpact, c);
    }
  }

  /** The last row given for the device. */
  ghost predicate LastRow(devices: seq<DeviceSeverity>, own: DeviceSeverity) {
    exists k :: 0 <= k < |devices| && devices[k] == own && forall l | k < l < |devices| :: devices[l].mac != own.mac
  }

  lemma {:induction false} KnownIsLast(devices: seq<DeviceSeverity>, mac: Name)
    ensures mac in Known(devices) <==> exists d :: d in devices && d.mac == mac
    ensures mac in Known(devices) ==> Known(devices)[mac].mac == mac && LastRow(devices, Known(devices)[mac])
  {
    KnownRows(devices);
    if devices != [] {
      var before, last := devices[..|devices| - 1], devices[|devices| - 1];
      assert devices == before + [last];
      KnownIsLast(before, mac);
      if mac == last.mac {
        assert devices[|before|] == last;
      } else if mac in Known(before) {
        var k :| 0 <= k < |before| && before[k] == Known(before)[mac] && forall l | k < l < |before| :: before[l].mac != mac;
        assert devices[k] == Known(devices)[mac];
      }
    }
  }

  /** The row's bands are the worst of the device's own and of everything said of it, what a source says of now capped by
      the source's own current. */
  ghost predicate RowStates(r: CompactDevice, own: DeviceSeverity, i: Inputs) {
    && r.mac == own.mac && r.site == own.site
    && Rank(own.peak) <= Rank(r.peak) && Rank(own.current) <= Rank(r.current)
    && (forall severity, current | Names(i, r.mac, severity, current) ::
          Rank(severity) <= Rank(r.peak) && (Rank(severity) <= Rank(r.current) || Rank(current) <= Rank(r.current)))
    && (r.peak == own.peak || exists current :: Names(i, r.mac, r.peak, current))
    && (r.current == own.current
        || exists severity, current :: Names(i, r.mac, severity, current) && IsLesser(r.current, severity, current))
  }

  predicate IsLesser(b: Band, x: Band, y: Band) {
    (b == x || b == y) && Rank(b) <= Rank(x) && Rank(b) <= Rank(y)
  }

  /** The devices a verdict can list: exactly the known ones that are at warning or above themselves or by what some
      source says of them, each once with the bands all of it states. */
  lemma ListableExactly(i: Inputs, rows: seq<CompactDevice>, bands: map<Name, Bands>, mac: Name)
    requires BandsAre(bands, Known(i.devices), AllClaims(i)) && RowsAre(rows, bands, Known(i.devices))
    ensures (exists r :: r in rows && r.mac == mac)
       <==> exists own :: LastRow(i.devices, own) && own.mac == mac && Listable(i, own)
    ensures forall r | r in rows && r.mac == mac :: exists own :: LastRow(i.devices, own) && RowStates(r, own, i)
  {
    KnownIsLast(i.devices, mac);
    if mac in bands {
      var own := Known(i.devices)[mac];
      BandsStated(i, own);
      if Rank(bands[mac].peak) >= Rank(Warning) {
        assert Row(own, bands[mac]) in rows;
        assert RowStates(Row(own, bands[mac]), own, i);
      }
    }
    if own :| LastRow(i.devices, own) && own.mac == mac && Listable(i, own) {
      LastRowKnown(i.devices, own);
    }
  }

  ghost predicate Listable(i: Inputs, own: DeviceSeverity) {
    || Rank(own.peak) >= Rank(Warning)
    || exists severity, current :: Names(i, own.mac, severity, current) && Rank(severity) >= Rank(Warning)
  }

  lemma LastRowKnown(devices: seq<DeviceSeverity>, own: DeviceSeverity)
    requires LastRow(devices, own)
    ensures own.mac in Known(devices) && Known(devices)[own.mac] == own
  {
    KnownIsLast(devices, own.mac);
    var k :| 0 <= k < |devices| && devices[k] == own && forall l | k < l < |devices| :: devices[l].mac != own.mac;
    assert own in devices;
    var other := Known(devices)[own.mac];
    var l :| 0 <= l < |devices| && devices[l] == other && forall m | l < m < |devices| :: devices[m].mac != other.mac;
  }

  lemma BandsStated(i: Inputs, own: DeviceSeverity)
    ensures RowStates(Row(own, BandsFor(own, AllClaims(i))), own, i)
    ensures Rank(BandsFor(own, AllClaims(i)).peak) >= Rank(Warning) <==> Listable(i, own)
  {
    var claims, b := AllClaims(i), BandsFor(own, AllClaims(i));
    BandsForExactly(own, claims);
    forall severity, current | Names(i, own.mac, severity, current)
      ensures Rank(severity) <= Rank(b.peak) && (Rank(severity) <= Rank(b.current) || Rank(current) <= Rank(b.current))
    {
      ClaimsExactly(i, Claim(own.mac, severity, current));
      assert Reaches(b, Claim(own.mac, severity, current));
    }
    if b.peak != own.peak {
      var c :| c in claims && c.mac == own.mac && c.severity == b.peak;
      ClaimsExactly(i, c);
    }
    if b.current != own.current {
      var c :| c in claims && c.mac == own.mac && AtMost(c.severity, c.sourceCurrent) == b.current;
      ClaimsExactly(i, c);
      assert IsLesser(b.current, c.severity, c.sourceCurrent);
    }
  }

  // Sources.

  /** The band is one the verdict publishes. */
  predicate Publishes(i: Inputs, b: Band) {
    b == PublishedPeak(i) || b == PublishedCurrent(i)
  }

  /** The base of the coverage decides the band. */
  predicate BaseDecides(i: Inputs, b: Band) {
    b == if i.coverage == Complete then NoImpact else Info
  }

  /** A published band the base decides, or one this peak or current sets at warning or above. */
  ghost predicate SetsOne(i: Inputs, peak: Band, current: Band) {
    exists b :: Publishes(i, b) && (BaseDecides(i, b) || Warns(peak, b) || Warns(current, b))
  }

  /** The worst of the conclusion's own band and those of the devices it measured. */
  ghost predicate FoldedPeak(i: Inputs, own: Band, b: Band) {
    && (b == own || exists d :: d in i.devices && d.peak == b)
    && Rank(own) <= Rank(b) && forall d | d in i.devices :: Rank(d.peak) <= Rank(b)
  }

  ghost predicate FoldedCurrent(i: Inputs, own: Band, b: Band) {
    && (b == own || exists d :: d in i.devices && d.current == b)
    && Rank(own) <= Rank(b) && forall d | d in i.devices :: Rank(d.current) <= Rank(b)
  }

  /** The source set one of the published bands: with the base, every deterministic source did; otherwise those that state
      it at warning or above, and the report if it counts and states it. */
  ghost predicate SetsBand(i: Inputs, source: Source) {
    match source
    case MonitoringSource =>
      i.monitoring.Some? && exists peak, current :: FoldedPeak(i, i.monitoring.value.peak, peak)
                                                    && FoldedCurrent(i, i.monitoring.value.current, current)
                                                    && SetsOne(i, peak, current)
    case DeploymentSource => i.deployment.Some? && SetsOne(i, i.deployment.value.peak, i.deployment.value.current)
    case RuleSource(plugin) =>
      exists r :: r in i.rules && r.plugin == plugin && SetsOne(i, r.conclusion.peak, r.conclusion.current)
    case AgentSource =>
      ReportCounts(i) && exists b :: Publishes(i, b) && !BaseDecides(i, b) && ReportStates(i.agent.value, b)
  }

  predicate ReportStates(a: AgentConclusion, b: Band) {
    b == (if a.peak.Some? then a.peak.value else NoImpact) || b == (if a.current.Some? then a.current.value else NoImpact)
  }

  lemma {:induction false} SourceNamesCome(inputs: seq<FloorInput>, source: Source)
    ensures source in SourceNames(inputs) <==> Named(inputs, source)
  {
    if inputs != [] {
      SourceNamesCome(inputs[1..], source);
      assert forall f :: f in inputs <==> f == inputs[0] || f in inputs[1..];
    }
  }

  lemma DecidesMeans(i: Inputs, f: FloorInput)
    ensures Decides(i, f, PublishedPeak(i)) || Decides(i, f, PublishedCurrent(i)) <==> SetsOne(i, f.peak, f.current)
  {
    assert Publishes(i, PublishedPeak(i)) && Publishes(i, PublishedCurrent(i));
  }

  lemma FoldedPeakIs(i: Inputs, own: Band, b: Band)
    ensures FoldedPeak(i, own, b) <==> b == if i.devices == [] then own else Worse(own, Worst(Peaks(i.devices)))
  {
    var folded := Worse(own, Worst(Peaks(i.devices)));
    WorstBounds(Peaks(i.devices));
    DeviceBandsCome(i.devices, Worst(Peaks(i.devices)));
    forall d | d in i.devices
      ensures Rank(d.peak) <= Rank(folded)
    {
      DeviceBandsCome(i.devices, d.peak);
    }
    if FoldedPeak(i, own, b) && i.devices != [] {
      assert i.devices[0] in i.devices && Peaks(i.devices) != [];
      RankInjective(b, folded);
    }
  }

  lemma FoldedCurrentIs(i: Inputs, own: Band, b: Band)
    ensures FoldedCurrent(i, own, b) <==> b == if i.devices == [] then own else Worse(own, Worst(Currents(i.devices)))
  {
    var folded := Worse(own, Worst(Currents(i.devices)));
    WorstBounds(Currents(i.devices));
    DeviceBandsCome(i.devices, Worst(Currents(i.devices)));
    forall d | d in i.devices
      ensures Rank(d.current) <= Rank(folded)
    {
      DeviceBandsCome(i.devices, d.current);
    }
    if FoldedCurrent(i, own, b) && i.devices != [] {
      assert i.devices[0] in i.devices && Currents(i.devices) != [];
      RankInjective(b, folded);
    }
  }

  lemma FoldedMonitoring(i: Inputs)
    requires i.monitoring.Some?
    ensures var f := MonitoringInput(i)[0];
            SetsBand(i, MonitoringSource) <==> SetsOne(i, f.peak, f.current)
  {
    var f := MonitoringInput(i)[0];
    forall b
      ensures FoldedPeak(i, i.monitoring.value.peak, b) <==> b == f.peak
      ensures FoldedCurrent(i, i.monitoring.value.current, b) <==> b == f.current
    {
      FoldedPeakIs(i, i.monitoring.value.peak, b);
      FoldedCurrentIs(i, i.monitoring.value.current, b);
    }
  }

  /** The verdict names exactly the sources that set its bands. */
  lemma SourcesExactly(i: Inputs, source: Source)
    ensures source in Sources(i) <==> SetsBand(i, source)
  {
    var decides := (f: FloorInput) => Decides(i, f, PublishedPeak(i)) || Decides(i, f, PublishedCurrent(i));
    var kept := Filter(FloorInputs(i), decides);
    FilterMembers(FloorInputs(i), decides);
    SourceNamesCome(kept, source);
    forall f | f in FloorInputs(i)
      ensures decides(f) <==> SetsOne(i, f.peak, f.current)
    {
      DecidesMeans(i, f);
    }
    FloorSourceSets(i, source, kept);
    ContributesMeans(i);
    AgentNamed(i);
  }

  /** The floor inputs that set a published band. */
  ghost predicate Setting(kept: seq<FloorInput>, i: Inputs) {
    forall f :: f in kept <==> f in FloorInputs(i) && SetsOne(i, f.peak, f.current)
  }

  ghost predicate Named(kept: seq<FloorInput>, source: Source) {
    exists f :: f in kept && f.source == source
  }

  lemma FloorSourceSets(i: Inputs, source: Source, kept: seq<FloorInput>)
    requires Setting(kept, i)
    ensures Named(kept, source) <==> source != AgentSource && SetsBand(i, source)
  {
    match source {
      case MonitoringSource => MonitoringNamed(i, kept);
      case DeploymentSource => DeploymentNamed(i, kept);
      case RuleSource(plugin) => RuleNamed(i, plugin, kept);
      case AgentSource =>
        forall f | f in kept {
          InputsCome(i, f);
        }
    }
  }

  lemma MonitoringNamed(i: Inputs, kept: seq<FloorInput>)
    requires Setting(kept, i)
    ensures Named(kept, MonitoringSource) <==> SetsBand(i, MonitoringSource)
  {
    forall f | f in FloorInputs(i)
      ensures f.source == MonitoringSource ==> f in MonitoringInput(i)
    {
      InputsCome(i, f);
    }
    if i.monitoring.Some? {
      FoldedMonitoring(i);
      InputsCome(i, MonitoringInput(i)[0]);
    }
  }

  lemma DeploymentNamed(i: Inputs, kept: seq<FloorInput>)
    requires Setting(kept, i)
    ensures Named(kept, DeploymentSource) <==> SetsBand(i, DeploymentSource)
  {
    forall f | f in FloorInputs(i)
      ensures f.source == DeploymentSource
          ==> i.deployment.Some? && f == FloorInput(DeploymentSource, i.deployment.value.peak, i.deployment.value.current)
    {
      InputsCome(i, f);
    }
    if i.deployment.Some? {
      InputsCome(i, FloorInput(DeploymentSource, i.deployment.value.peak, i.deployment.value.current));
    }
  }

  lemma RuleNamed(i: Inputs, plugin: Name, kept: seq<FloorInput>)
    requires Setting(kept, i)
    ensures Named(kept, RuleSource(plugin)) <==> SetsBand(i, RuleSource(plugin))
  {
    if f :| f in kept && f.source == RuleSource(plugin) {
      InputsCome(i, f);
    }
    if r :| r in i.rules && r.plugin == plugin && SetsOne(i, r.conclusion.peak, r.conclusion.current) {
      var f := FloorInput(RuleSource(r.plugin), r.conclusion.peak, r.conclusion.current);
      InputsCome(i, f);
      assert f in kept;
    }
  }

  lemma AgentNamed(i: Inputs)
    ensures AgentDecides(i, PublishedPeak(i)) || AgentDecides(i, PublishedCurrent(i)) <==> SetsBand(i, AgentSource)
  {
    ContributesMeans(i);
    assert Publishes(i, PublishedPeak(i)) && Publishes(i, PublishedCurrent(i));
  }

  /** The fixed order of sources: monitoring, deployment, the plug-ins by id, the agent. */
  predicate SourceBefore(a: Source, b: Source) {
    match a
    case MonitoringSource => b != MonitoringSource
    case DeploymentSource => b.RuleSource? || b.AgentSource?
    case RuleSource(plugin) => b.AgentSource? || (b.RuleSource? && NameBefore(plugin, b.plugin))
    case AgentSource => false
  }

  ghost predicate SourcesAscend(sources: seq<Source>) {
    forall k, l | 0 <= k < l < |sources| :: SourceBefore(sources[k], sources[l])
  }

  ghost predicate ByPlugin(rules: seq<RuleConclusion>) {
    forall k, l | 0 <= k < l < |rules| :: NameBefore(rules[k].plugin, rules[l].plugin)
  }

  lemma {:induction false} RuleSourcesAscend(rules: seq<RuleConclusion>, keep: FloorInput -> bool)
    requires ByPlugin(rules)
    ensures SourcesAscend(SourceNames(Filter(RuleInputs(rules), keep)))
    ensures forall s | s in SourceNames(Filter(RuleInputs(rules), keep)) ::
              exists r :: r in rules && s == RuleSource(r.plugin)
  {
    if rules != [] {
      assert forall k | 0 <= k < |rules[1..]| :: rules[1..][k] == rules[k + 1] && NameBefore(rules[0].plugin, rules[k + 1].plugin);
      RuleSourcesAscend(rules[1..], keep);
      var first := FloorInput(RuleSource(rules[0].plugin), rules[0].conclusion.peak, rules[0].conclusion.current);
      var rest := Filter(RuleInputs(rules[1..]), keep);
      assert RuleInputs(rules)[0] == first && RuleInputs(rules)[1..] == RuleInputs(rules[1..]);
      if keep(first) {
        SourcesCons(first, rest, rules);
      } else {
        assert [] + rest == rest;
      }
    }
  }

  lemma SourcesCons(first: FloorInput, rest: seq<FloorInput>, rules: seq<RuleConclusion>)
    requires rules != [] && first.source == RuleSource(rules[0].plugin) && SourcesAscend(SourceNames(rest))
    requires forall k | 0 < k < |rules| :: NameBefore(rules[0].plugin, rules[k].plugin)
    requires forall s | s in SourceNames(rest) :: exists r :: r in rules[1..] && s == RuleSource(r.plugin)
    ensures SourcesAscend(SourceNames([first] + rest))
    ensures forall s | s in SourceNames([first] + rest) :: exists r :: r in rules && s == RuleSource(r.plugin)
  {
    var names := SourceNames(rest);
    assert ([first] + rest)[1..] == rest;
    assert SourceNames([first] + rest) == [first.source] + names;
    forall k | 0 <= k < |names|
      ensures SourceBefore(first.source, names[k])
    {
      assert names[k] in names;
    }
    assert rules[0] in rules;
  }

  lemma {:induction false} SourceNamesAppend(a: seq<FloorInput>, b: seq<FloorInput>)
    ensures SourceNames(a + b) == SourceNames(a) + SourceNames(b)
  {
    if a == [] {
      assert a + b == b;
    } else {
      assert (a + b)[1..] == a[1..] + b;
      SourceNamesAppend(a[1..], b);
    }
  }

  lemma {:induction false} RulesSorted(rules: seq<RuleConclusion>)
    requires forall k, l | 0 <= k < l < |rules| :: rules[k].plugin != rules[l].plugin
    ensures ByPlugin(Prioritized(rules, PluginLeq))
  {
    NameOrder();
    PrioritizedOrdered(rules, PluginLeq);
    SortedMembers(rules, PluginLeq);
    var sorted := Prioritized(rules, PluginLeq);
    forall k, l | 0 <= k < l < |sorted|
      ensures NameBefore(sorted[k].plugin, sorted[l].plugin)
    {
      OrderedAt(sorted, PluginLeq, k, l);
      assert sorted[k] in rules && sorted[l] in rules && sorted[k] != sorted[l];
      var m :| 0 <= m < |rules| && rules[m] == sorted[k];
      var n :| 0 <= n < |rules| && rules[n] == sorted[l];
      assert m != n;
      assert m < n ==> rules[m].plugin != rules[n].plugin;
      assert n < m ==> rules[n].plugin != rules[m].plugin;
    }
  }

  lemma AppendAscends(s: seq<Source>, t: seq<Source>)
    requires SourcesAscend(s) && SourcesAscend(t) && forall x, y | x in s && y in t :: SourceBefore(x, y)
    ensures SourcesAscend(s + t)
  {
    var all := s + t;
    forall k, l | 0 <= k < l < |all|
      ensures SourceBefore(all[k], all[l])
    {
      if l < |s| {
        assert all[k] == s[k] && all[l] == s[l];
      } else if k < |s| {
        assert all[k] == s[k] && all[l] == t[l - |s|] && s[k] in s && t[l - |s|] in t;
      } else {
        assert all[k] == t[k - |s|] && all[l] == t[l - |s|];
      }
    }
  }

  lemma JoinedAscend(a: seq<Source>, b: seq<Source>, c: seq<Source>, d: seq<Source>)
    requires (a == [] || a == [MonitoringSource]) && (b == [] || b == [DeploymentSource])
    requires SourcesAscend(c) && forall s | s in c :: s.RuleSource?
    requires d == [] || d == [AgentSource]
    ensures SourcesAscend(a + b + c + d)
  {
    AppendAscends(a, b);
    AppendAscends(a + b, c);
    AppendAscends(a + b + c, d);
  }

  /** The sources in four parts. */
  lemma SourceParts(i: Inputs, decides: FloorInput -> bool, deployment: seq<FloorInput>)
    requires deployment == if i.deployment.None? then []
                           else [FloorInput(DeploymentSource, i.deployment.value.peak, i.deployment.value.current)]
    ensures SourceNames(Filter(FloorInputs(i), decides))
         == SourceNames(Filter(MonitoringInput(i), decides)) + SourceNames(Filter(deployment, decides))
            + SourceNames(Filter(RuleInputs(Prioritized(i.rules, PluginLeq)), decides))
  {
    var rules := RuleInputs(Prioritized(i.rules, PluginLeq));
    assert FloorInputs(i) == MonitoringInput(i) + deployment + rules;
    FilterAppend(MonitoringInput(i) + deployment, rules, decides);
    FilterAppend(MonitoringInput(i), deployment, decides);
    SourceNamesAppend(Filter(MonitoringInput(i) + deployment, decides), Filter(rules, decides));
    SourceNamesAppend(Filter(MonitoringInput(i), decides), Filter(deployment, decides));
  }

  /** And names them once each, in the fixed order. */
  lemma SourcesInOrder(i: Inputs)
    requires forall k, l | 0 <= k < l < |i.rules| :: i.rules[k].plugin != i.rules[l].plugin
    ensures SourcesAscend(Sources(i))
  {
    var peak, current := PublishedPeak(i), PublishedCurrent(i);
    var decides := (f: FloorInput) => Decides(i, f, peak) || Decides(i, f, current);
    var deployment := if i.deployment.None? then []
                      else [FloorInput(DeploymentSource, i.deployment.value.peak, i.deployment.value.current)];
    RulesSorted(i.rules);
    RuleSourcesAscend(Prioritized(i.rules, PluginLeq), decides);
    SourceParts(i, decides, deployment);
    SingleSource(MonitoringInput(i), decides, MonitoringSource);
    SingleSource(deployment, decides, DeploymentSource);
    JoinedAscend(SourceNames(Filter(MonitoringInput(i), decides)), SourceNames(Filter(deployment, decides)),
                 SourceNames(Filter(RuleInputs(Prioritized(i.rules, PluginLeq)), decides)),
                 if AgentDecides(i, peak) || AgentDecides(i, current) then [AgentSource] else []);
  }

  lemma SingleSource(inputs: seq<FloorInput>, keep: FloorInput -> bool, source: Source)
    requires |inputs| <= 1 && forall f | f in inputs :: f.source == source
    ensures SourceNames(Filter(inputs, keep)) == [] || SourceNames(Filter(inputs, keep)) == [source]
  {
    if inputs != [] {
      assert inputs[0] in inputs && Filter(inputs[1..], keep) == [];
    }
  }

  // Recovery.

  /** The recovery a verdict states: unrecovered exactly while its current warns, recovered when only its peak did, and
      otherwise unaffected. */
  lemma RecoveryExactly(v: Verdict, i: Inputs)
    requires Composed(v, i)
    ensures v.recovery == Unrecovered <==> v.current in {Warning, Critical}
    ensures v.recovery == Recovered <==> v.peak in {Warning, Critical} && v.current in {NoImpact, Info}
  {
  }
}
