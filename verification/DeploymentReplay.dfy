/** Deployment pairing over a whole ledger: which devices the audit reached, their receipts paired, and the statuses of
    the deployment preconditions. */
module DeploymentReplay {
  import opened Contracts
  import opened Ordering
  import opened Change
  import opened Obligations
  import opened Conclusions
  import opened Targeting
  import opened Numbering
  import opened Ledger
  import opened LedgerTheorems
  import opened Deployment
  import opened DeploymentTheorems
  import Evidence

  // Which devices the audit reached.

  predicate Triggers(r: Receipt, audit: Name, asOf: int) {
    r.eventType.UserTrigger? && r.auditId == Some(audit) && r.receivedAt <= asOf
  }

  /** Later by provider second, then receipt time, then receipt id. */
  predicate NotLater(a: Receipt, b: Receipt) {
    var s, t := EventOf(a).second, EventOf(b).second;
    s < t || (s == t && (a.receivedAt < b.receivedAt || (a.receivedAt == b.receivedAt && NameLeq(a.id, b.id))))
  }

  ghost predicate LatestTrigger(r: Receipt, receipts: seq<Receipt>, audit: Name, asOf: int) {
    && r in receipts && Triggers(r, audit, asOf)
    && forall other | other in receipts && Triggers(other, audit, asOf) && other.mac == r.mac :: NotLater(other, r)
  }

  ghost predicate LatestByMac(latest: map<Name, Receipt>, receipts: seq<Receipt>, audit: Name, asOf: int) {
    && (forall r | r in receipts && Triggers(r, audit, asOf) :: r.mac in latest)
    && (forall mac | mac in latest :: latest[mac].mac == mac && LatestTrigger(latest[mac], receipts, audit, asOf))
  }

  lemma NotLaterOrder()
    ensures Total(NotLater) && Transitive(NotLater)
  {
    NameOrder();
    forall a: Receipt, b: Receipt, c: Receipt | NotLater(a, b) && NotLater(b, c)
      ensures NotLater(a, c)
    {
      if a.receivedAt == b.receivedAt == c.receivedAt {
        assert NameLeq(a.id, b.id) && NameLeq(b.id, c.id) ==> NameLeq(a.id, c.id);
      }
    }
  }

  lemma LatestStep(latest: map<Name, Receipt>, receipts: seq<Receipt>, r: Receipt, audit: Name, asOf: int)
    requires LatestByMac(latest, receipts, audit, asOf)
    ensures LatestByMac(if Triggers(r, audit, asOf) && (r.mac !in latest || !NotLater(r, latest[r.mac]))
                        then latest[r.mac := r] else latest,
                        receipts + [r], audit, asOf)
  {
    NotLaterOrder();
    assert forall x :: x in receipts + [r] <==> x in receipts || x == r;
    var next := if Triggers(r, audit, asOf) && (r.mac !in latest || !NotLater(r, latest[r.mac]))
                then latest[r.mac := r] else latest;
    forall mac | mac in next
      ensures next[mac].mac == mac && LatestTrigger(next[mac], receipts + [r], audit, asOf)
    {
      if mac in latest {
        assert LatestTrigger(latest[mac], receipts, audit, asOf);
        assert NotLater(latest[mac], latest[mac]);
      } else {
        assert NotLater(r, r);
      }
    }
  }

  ghost predicate ListsMac(devices: seq<ExpectedDevice>, mac: Name) {
    exists d :: d in devices && d.mac == mac
  }

  /** The device of a latest trigger, at that trigger's site. */
  ghost predicate ExpectedFrom(d: ExpectedDevice, receipts: seq<Receipt>, audit: Name, asOf: int) {
    exists r :: LatestTrigger(r, receipts, audit, asOf) && d == ExpectedDevice(r.mac, r.site)
  }

  /** The expected devices: by MAC, one for every device triggered, each from its latest trigger. */
  ghost predicate ExpectedFor(devices: seq<ExpectedDevice>, receipts: seq<Receipt>, audit: Name, asOf: int) {
    && (forall i, j | 0 <= i < j < |devices| :: NameBefore(devices[i].mac, devices[j].mac))
    && (forall r | r in receipts && Triggers(r, audit, asOf) :: ListsMac(devices, r.mac))
    && (forall d | d in devices :: ExpectedFrom(d, receipts, audit, asOf))
  }

  /** Devices with a user trigger carrying this audit, by MAC, each at its latest site. */
  method ExpectedDevices(receipts: seq<Receipt>, audit: Name, asOf: int) returns (devices: seq<ExpectedDevice>)
    ensures ExpectedFor(devices, receipts, audit, asOf)
  {
    var latest: map<Name, Receipt> := map[];
    var seen: seq<Name> := [];
    for i := 0 to |receipts|
      invariant LatestByMac(latest, receipts[..i], audit, asOf)
      invariant Distinct(seen) && forall mac :: mac in seen <==> mac in latest
    {
      var r := receipts[i];
      Taking(receipts, i);
      LatestStep(latest, receipts[..i], r, audit, asOf);
      if Triggers(r, audit, asOf) && (r.mac !in latest || !NotLater(r, latest[r.mac])) {
        seen := if r.mac in latest then seen else seen + [r.mac];
        latest := latest[r.mac := r];
      }
    }
    Taken(receipts);
    var macs := SortedNames(seen);
    devices := DevicesAt(macs, latest);
    DevicesAtHold(macs, latest, receipts, audit, asOf);
  }

  function DevicesAt(macs: seq<Name>, latest: map<Name, Receipt>): seq<ExpectedDevice>
    requires forall mac | mac in macs :: mac in latest
  {
    seq(|macs|, i requires 0 <= i < |macs| => ExpectedDevice(macs[i], latest[macs[i]].site))
  }

  lemma DevicesAtHold(macs: seq<Name>, latest: map<Name, Receipt>, receipts: seq<Receipt>, audit: Name, asOf: int)
    requires LatestByMac(latest, receipts, audit, asOf) && forall mac :: mac in macs <==> mac in latest
    ensures var devices := DevicesAt(macs, latest);
            && (forall r | r in receipts && Triggers(r, audit, asOf) :: ListsMac(devices, r.mac))
            && (forall d | d in devices :: ExpectedFrom(d, receipts, audit, asOf))
  {
    var devices := DevicesAt(macs, latest);
    forall r | r in receipts && Triggers(r, audit, asOf)
      ensures ListsMac(devices, r.mac)
    {
      assert r.mac in macs;
      var i :| 0 <= i < |macs| && macs[i] == r.mac;
      assert devices[i] in devices;
    }
    forall d | d in devices
      ensures ExpectedFrom(d, receipts, audit, asOf)
    {
      var i :| 0 <= i < |devices| && devices[i] == d;
      assert macs[i] in macs && LatestTrigger(latest[macs[i]], receipts, audit, asOf);
    }
  }

  // When the audit changed.

  predicate TimesChange(r: Receipt, audit: Name, asOf: int) {
    Triggers(r, audit, asOf) && r.occurredAt.Some?
  }

  function EarliestSecond(receipts: seq<Receipt>): Option<int> {
    if receipts == [] then None
    else
      var rest := EarliestSecond(receipts[1..]);
      var second := EventOf(receipts[0]).second;
      if rest.Some? && rest.value < second then rest else Some(second)
  }

  datatype Anchor = Anchor(changedAt: int, source: AnchorSource)

  /** The audit's own time, else the earliest provider time of an audit-linked user trigger, else its receipt time. */
  function ResolveAnchor(receipts: seq<Receipt>, audit: Name, auditTime: Option<int>, receivedAt: int, asOf: int): Anchor {
    var triggered := EarliestSecond(Filter(receipts, (r: Receipt) => TimesChange(r, audit, asOf)));
    if auditTime.Some? then Anchor(auditTime.value, AuditTime)
    else if triggered.Some? then Anchor(triggered.value, DeviceTriggerTime)
    else Anchor(receivedAt, ReceiptTime)
  }

  lemma {:induction false} EarliestSecondMeans(receipts: seq<Receipt>)
    ensures EarliestSecond(receipts).None? <==> receipts == []
    ensures forall r | r in receipts :: EarliestSecond(receipts).Some? && EarliestSecond(receipts).value <= EventOf(r).second
    ensures EarliestSecond(receipts).Some?
        ==> exists r :: r in receipts && EventOf(r).second == EarliestSecond(receipts).value
  {
    if receipts != [] {
      EarliestSecondMeans(receipts[1..]);
      assert receipts[0] in receipts;
      assert forall r :: r in receipts <==> r == receipts[0] || r in receipts[1..];
    }
  }

  /** The change time is only the receipt's when neither the audit nor any provider-timed trigger of it told. */
  lemma AnchorIsReceiptOnlyWhenUntold(receipts: seq<Receipt>, audit: Name, auditTime: Option<int>, receivedAt: int,
                                      asOf: int)
    ensures var anchor := ResolveAnchor(receipts, audit, auditTime, receivedAt, asOf);
            && (anchor.source == ReceiptTime
                <==> auditTime.None? && forall r | r in receipts :: !TimesChange(r, audit, asOf))
            && (anchor.source == DeviceTriggerTime
                ==> forall r | r in receipts && TimesChange(r, audit, asOf) :: anchor.changedAt <= EventOf(r).second)
  {
    var timed := (r: Receipt) => TimesChange(r, audit, asOf);
    FilterMembers(receipts, timed);
    EarliestSecondMeans(Filter(receipts, timed));
    if Filter(receipts, timed) != [] {
      assert Filter(receipts, timed)[0] in Filter(receipts, timed);
    }
  }

  // Pairing every row device.

  predicate Relevant(r: Receipt, mac: Name, frame: Frame) {
    var event := EventOf(r);
    && r.mac == mac && r.receivedAt <= frame.asOf && (IsTrigger(event) || IsOutcome(event))
    && frame.PairingStart() <= event.second <= frame.asOf
  }

  function RelevantTo(mac: Name, frame: Frame): Receipt -> bool {
    (r: Receipt) => Relevant(r, mac, frame)
  }

  function EventsOf(receipts: seq<Receipt>): seq<Event> {
    if receipts == [] then [] else EventsOf(receipts[..|receipts| - 1]) + [EventOf(receipts[|receipts| - 1])]
  }

  /** A device's events over the pairing window, in order. */
  function DeviceEvents(receipts: seq<Receipt>, mac: Name, frame: Frame): seq<Event> {
    Prioritized(EventsOf(Filter(receipts, RelevantTo(mac, frame))), EventLeq)
  }

  ghost predicate Grouped(events: map<Name, seq<Event>>, receipts: seq<Receipt>, frame: Frame, macs: seq<Name>) {
    forall mac | mac in macs :: At(events, Some(mac)) == EventsOf(Filter(receipts, RelevantTo(mac, frame)))
  }

  lemma EventsOfSnoc(receipts: seq<Receipt>, r: Receipt, mac: Name, frame: Frame)
    ensures EventsOf(Filter(receipts + [r], RelevantTo(mac, frame)))
         == EventsOf(Filter(receipts, RelevantTo(mac, frame))) + (if Relevant(r, mac, frame) then [EventOf(r)] else [])
  {
    FilterSnoc(receipts, r, RelevantTo(mac, frame));
    var before := Filter(receipts, RelevantTo(mac, frame));
    if Relevant(r, mac, frame) {
      assert (before + [r])[..|before|] == before;
    } else {
      assert before + [] == before;
    }
  }

  lemma GroupStep(events: map<Name, seq<Event>>, receipts: seq<Receipt>, r: Receipt, frame: Frame, macs: seq<Name>)
    requires Grouped(events, receipts, frame, macs)
    ensures Grouped(if Relevant(r, r.mac, frame) && r.mac in macs
                    then events[r.mac := At(events, Some(r.mac)) + [EventOf(r)]] else events,
                    receipts + [r], frame, macs)
  {
    var next := if Relevant(r, r.mac, frame) && r.mac in macs
                then events[r.mac := At(events, Some(r.mac)) + [EventOf(r)]] else events;
    forall mac | mac in macs
      ensures At(next, Some(mac)) == EventsOf(Filter(receipts + [r], RelevantTo(mac, frame)))
    {
      EventsOfSnoc(receipts, r, mac, frame);
    }
  }

  datatype Replay = Replay(
    devices: seq<DeviceDeployment>,
    preconditions: map<nat, Name>,
    peak: Band,
    current: Band,
    gaps: set<(GapKind, Name)>)

  /** One device of the replay: its own events paired for this audit. */
  ghost predicate PairedFor(d: DeviceDeployment, receipts: seq<Receipt>, frame: Frame, mac: Name, site: Option<Name>) {
    PairedAs(d, mac, site, DeviceEvents(receipts, mac, frame), frame.auditId)
  }

  /** The worst bands of the devices. */
  ghost predicate SeverityOf(devices: seq<DeviceDeployment>, peak: Band, current: Band) {
    && Ordered(peak, current)
    && (forall d | d in devices :: Rank(d.judgement.peak) <= Rank(peak) && Rank(d.judgement.current) <= Rank(current))
    && (peak == NoImpact || exists d :: d in devices && d.judgement.peak == peak)
    && (current == NoImpact || exists d :: d in devices && d.judgement.current == current)
  }

  /** The gap was found on this device. */
  ghost predicate GapOn(g: GapKind, mac: Name, devices: seq<DeviceDeployment>, receipts: seq<Receipt>, frame: Frame) {
    exists d :: d in devices && d.mac == mac
                && GapFound(g, DeviceEvents(receipts, mac, frame), frame.auditId, d.judgement)
  }

  /** Exactly the gaps found on the devices, each with its device. */
  ghost predicate GapsNamed(gaps: set<(GapKind, Name)>, devices: seq<DeviceDeployment>, receipts: seq<Receipt>,
                            frame: Frame)
  {
    forall g, mac :: (g, mac) in gaps <==> GapOn(g, mac, devices, receipts, frame)
  }

  lemma GapsStep(gaps: set<(GapKind, Name)>, devices: seq<DeviceDeployment>, receipts: seq<Receipt>, frame: Frame,
                 d: DeviceDeployment, found: set<GapKind>)
    requires GapsNamed(gaps, devices, receipts, frame)
    requires forall g :: g in found <==> GapFound(g, DeviceEvents(receipts, d.mac, frame), frame.auditId, d.judgement)
    ensures GapsNamed(gaps + (set g | g in found :: (g, d.mac)), devices + [d], receipts, frame)
  {
    forall g, mac
      ensures GapOn(g, mac, devices + [d], receipts, frame)
         <==> GapOn(g, mac, devices, receipts, frame) || (mac == d.mac && g in found)
    {
      assert forall x :: x in devices + [d] <==> x in devices || x == d;
    }
  }

  /** Each deployment precondition that names a device, and that device. */
  function Preconditions(obligations: seq<Obligation>): map<nat, Name> {
    if obligations == [] then map[]
    else
      var last := obligations[|obligations| - 1];
      var before := Preconditions(obligations[..|obligations| - 1]);
      if last.kind == DeploymentKind && last.target.device.Some? then before[last.id := last.target.device.value] else before
  }

  lemma {:induction false} PreconditionsName(obligations: seq<Obligation>)
    requires Consecutive(obligations)
    ensures forall o | o in obligations && o.kind == DeploymentKind && o.target.device.Some? ::
              o.id in Preconditions(obligations) && Preconditions(obligations)[o.id] == o.target.device.value
    ensures forall id | id in Preconditions(obligations) ::
              exists o :: o in obligations && o.kind == DeploymentKind && o.id == id
                          && o.target.device == Some(Preconditions(obligations)[id])
  {
    if obligations != [] {
      var before := obligations[..|obligations| - 1];
      var last := obligations[|obligations| - 1];
      PreconditionsName(before);
      assert obligations == before + [last];
      assert forall o :: o in obligations <==> o in before || o == last;
    }
  }

  method GroupEvents(receipts: seq<Receipt>, frame: Frame, macs: seq<Name>) returns (events: map<Name, seq<Event>>)
    ensures Grouped(events, receipts, frame, macs)
  {
    events := map[];
    for i := 0 to |receipts|
      invariant Grouped(events, receipts[..i], frame, macs)
    {
      var r := receipts[i];
      Taking(receipts, i);
      GroupStep(events, receipts[..i], r, frame, macs);
      if Relevant(r, r.mac, frame) && r.mac in macs {
        events := events[r.mac := At(events, Some(r.mac)) + [EventOf(r)]];
      }
    }
    Taken(receipts);
  }

  method PairOne(events: seq<Event>, ghost receipts: seq<Receipt>, frame: Frame, mac: Name, site: Option<Name>)
    returns (d: DeviceDeployment, gaps: set<GapKind>)
    requires events == DeviceEvents(receipts, mac, frame)
    ensures PairedFor(d, receipts, frame, mac, site) && Ordered(d.judgement.peak, d.judgement.current)
    ensures d.mac == mac
    ensures forall g :: g in gaps <==> GapFound(g, DeviceEvents(receipts, mac, frame), frame.auditId, d.judgement)
  {
    d, gaps := PairDevice(mac, site, events, frame.auditId);
  }

  lemma SeverityStep(devices: seq<DeviceDeployment>, peak: Band, current: Band, d: DeviceDeployment)
    requires SeverityOf(devices, peak, current) && Ordered(d.judgement.peak, d.judgement.current)
    ensures SeverityOf(devices + [d], Worse(peak, d.judgement.peak), Worse(current, d.judgement.current))
  {
    assert forall x :: x in devices + [d] <==> x in devices || x == d;
  }

  method PairAll(receipts: seq<Receipt>, frame: Frame, macs: seq<Name>, targets: map<Name, Target>)
    returns (devices: seq<DeviceDeployment>, peak: Band, current: Band, gaps: set<(GapKind, Name)>)
    requires forall mac | mac in macs :: mac in targets
    ensures AllPaired(devices, receipts, frame, macs, targets)
    ensures SeverityOf(devices, peak, current) && GapsNamed(gaps, devices, receipts, frame)
  {
    var events := GroupEvents(receipts, frame, macs);
    devices, peak, current, gaps := [], NoImpact, NoImpact, {};
    for i := 0 to |macs|
      invariant AllPaired(devices, receipts, frame, macs[..i], targets)
      invariant SeverityOf(devices, peak, current) && GapsNamed(gaps, devices, receipts, frame)
    {
      var mac := macs[i];
      assert mac in macs;
      var own := Prioritized(At(events, Some(mac)), EventLeq);
      assert own == DeviceEvents(receipts, mac, frame);
      var d, found := PairOne(own, receipts, frame, mac, targets[mac].site);
      Taking(macs, i);
      PairedStep(devices, receipts, frame, macs[..i], targets, d, mac);
      SeverityStep(devices, peak, current, d);
      GapsStep(gaps, devices, receipts, frame, d, found);
      peak, current := Worse(peak, d.judgement.peak), Worse(current, d.judgement.current);
      gaps := gaps + set g | g in found :: (g, mac);
      devices := devices + [d];
    }
    Taken(macs);
  }

  lemma PairedStep(devices: seq<DeviceDeployment>, receipts: seq<Receipt>, frame: Frame, macs: seq<Name>,
                   targets: map<Name, Target>, d: DeviceDeployment, mac: Name)
    requires AllPaired(devices, receipts, frame, macs, targets) && mac in targets
    requires PairedFor(d, receipts, frame, mac, targets[mac].site)
    ensures AllPaired(devices + [d], receipts, frame, macs + [mac], targets)
  {
    var all, names := devices + [d], macs + [mac];
    forall i | 0 <= i < |names|
      ensures PairedFor(all[i], receipts, frame, names[i], targets[names[i]].site)
    {
      if i < |macs| {
        assert PairedFor(devices[i], receipts, frame, macs[i], targets[macs[i]].site);
      }
    }
  }

  /** What the replay makes of its devices: their worst bands, the gaps found on them, and the ledger's preconditions. */
  ghost predicate SummedUp(replay: Replay, receipts: seq<Receipt>, frame: Frame, ledger: Ledger) {
    && SeverityOf(replay.devices, replay.peak, replay.current)
    && GapsNamed(replay.gaps, replay.devices, receipts, frame)
    && replay.preconditions == Preconditions(ledger.obligations)
  }

  /** Pair device events for every device a ledger row targets. */
  method PairDeployments(receipts: seq<Receipt>, frame: Frame, ledger: Ledger, rowTargets: seq<Target>)
    returns (replay: Replay, ghost devices: RowDevices)
    ensures devices.Valid() && devices.rows == rowTargets
    ensures AllPaired(replay.devices, receipts, frame, devices.macs, devices.targets)
    ensures SummedUp(replay, receipts, frame, ledger)
  {
    var rowDevices := new RowDevices(rowTargets);
    devices := rowDevices;
    var paired, peak, current, gaps := PairAll(receipts, frame, rowDevices.macs, rowDevices.targets);
    replay := Replay(paired, Preconditions(ledger.obligations), peak, current, gaps);
  }

  // Statuses and the conclusion.

  function DeviceAt(devices: seq<DeviceDeployment>, mac: Name): Option<DeviceDeployment> {
    if devices == [] then None
    else if devices[0].mac == mac then Some(devices[0])
    else DeviceAt(devices[1..], mac)
  }

  lemma {:induction false} DeviceAtFinds(devices: seq<DeviceDeployment>, mac: Name)
    ensures DeviceAt(devices, mac).Some? <==> exists d :: d in devices && d.mac == mac
    ensures DeviceAt(devices, mac).Some? ==> DeviceAt(devices, mac).value in devices && DeviceAt(devices, mac).value.mac == mac
  {
    if devices != [] {
      DeviceAtFinds(devices[1..], mac);
      assert forall d :: d in devices <==> d == devices[0] || d in devices[1..];
    }
  }

  function StatusFor(d: DeviceDeployment): Status {
    Status(if d.judgement.satisfied then Satisfied else Unsatisfied, d.judgement.reason)
  }

  function Statuses(replay: Replay): map<nat, Status> {
    map id | id in replay.preconditions && DeviceAt(replay.devices, replay.preconditions[id]).Some?
      :: StatusFor(DeviceAt(replay.devices, replay.preconditions[id]).value)
  }

  function Impacted(devices: seq<DeviceDeployment>): seq<DeviceImpact> {
    if devices == [] then []
    else (if devices[0].judgement.peak != NoImpact then [DeviceImpact(devices[0].mac, devices[0].judgement.peak, [])] else [])
         + Impacted(devices[1..])
  }

  function Concluded(replay: Replay): Conclusion {
    Conclusion(Statuses(replay), replay.peak, replay.current, Impacted(replay.devices))
  }

  lemma {:induction false} ImpactedWithin(devices: seq<DeviceDeployment>, peak: Band)
    requires forall d | d in devices :: Rank(d.judgement.peak) <= Rank(peak)
    ensures ImpactsWithin(Impacted(devices), peak)
  {
    if devices != [] {
      assert devices[0] in devices;
      ImpactedWithin(devices[1..], peak);
    }
  }

  /** Whatever arrived, the replay's conclusion meets the contract's invariant. */
  lemma ConcludedIsValid(replay: Replay, receipts: seq<Receipt>, frame: Frame, macs: seq<Name>,
                         targets: map<Name, Target>)
    requires AllPaired(replay.devices, receipts, frame, macs, targets)
    requires SeverityOf(replay.devices, replay.peak, replay.current)
    ensures ValidConclusion(Concluded(replay))
  {
    ImpactedWithin(replay.devices, replay.peak);
    forall id | id in Statuses(replay)
      ensures ValidStatus(Statuses(replay)[id])
    {
      var mac := replay.preconditions[id];
      DeviceAtFinds(replay.devices, mac);
      var d := DeviceAt(replay.devices, mac).value;
      var i :| 0 <= i < |replay.devices| && replay.devices[i] == d;
      assert PairedFor(replay.devices[i], receipts, frame, macs[i], targets[macs[i]].site);
      var paired, uncertain :|
        DeviceOf(d, macs[i], targets[macs[i]].site, DeviceEvents(receipts, macs[i], frame), frame.auditId, paired, uncertain);
      JudgementHolds(OwnTriggers(DeviceEvents(receipts, macs[i], frame), frame.auditId) != [], paired, uncertain);
    }
  }

  /** The outcome of a receipt of this device confirms the change: a provider-timed configured outcome at or after a
      provider-timed trigger of this audit. */
  ghost predicate Confirmed(receipts: seq<Receipt>, frame: Frame, mac: Name) {
    exists t, o :: t in DeviceEvents(receipts, mac, frame) && o in DeviceEvents(receipts, mac, frame)
                   && TriggeredBy(t, o, frame.auditId) && IsOutcome(o) && o.eventType.kind == Configured
  }

  /** A device judged satisfied was confirmed by its own receipts. */
  lemma SatisfiedIsConfirmed(d: DeviceDeployment, receipts: seq<Receipt>, frame: Frame, mac: Name, site: Option<Name>)
    requires PairedFor(d, receipts, frame, mac, site) && d.judgement.satisfied
    ensures Confirmed(receipts, frame, mac)
  {
    var paired, uncertain :| DeviceOf(d, mac, site, DeviceEvents(receipts, mac, frame), frame.auditId, paired, uncertain);
    var events := DeviceEvents(receipts, mac, frame);
    var t, a := SatisfiedIsSound(events, frame.auditId, OwnTriggers(events, frame.auditId) != [], paired, uncertain);
    assert TriggeredBy(t, a.event, frame.auditId);
  }

  ghost predicate AllPaired(devices: seq<DeviceDeployment>, receipts: seq<Receipt>, frame: Frame, macs: seq<Name>,
                            targets: map<Name, Target>)
  {
    && |devices| == |macs| && (forall mac | mac in macs :: mac in targets)
    && forall i {:trigger PairedFor(devices[i], receipts, frame, macs[i], targets[macs[i]].site)} | 0 <= i < |macs| ::
         PairedFor(devices[i], receipts, frame, macs[i], targets[macs[i]].site)
  }

  /** The status of a row device is that of its own paired receipts. */
  lemma SatisfiedStatusIsConfirmed(devices: seq<DeviceDeployment>, receipts: seq<Receipt>, frame: Frame,
                                   macs: seq<Name>, targets: map<Name, Target>, mac: Name)
    requires AllPaired(devices, receipts, frame, macs, targets) && mac in macs
    ensures DeviceAt(devices, mac).Some?
    ensures StatusFor(DeviceAt(devices, mac).value).value == Satisfied ==> Confirmed(receipts, frame, mac)
  {
    var k :| 0 <= k < |macs| && macs[k] == mac;
    assert PairedFor(devices[k], receipts, frame, macs[k], targets[macs[k]].site);
    assert devices[k] in devices && devices[k].mac == mac;
    DeviceAtFinds(devices, mac);
    var d := DeviceAt(devices, mac).value;
    var i :| 0 <= i < |devices| && devices[i] == d;
    assert PairedFor(devices[i], receipts, frame, macs[i], targets[macs[i]].site);
    assert d.mac == macs[i];
    if d.judgement.satisfied {
      SatisfiedIsConfirmed(d, receipts, frame, mac, targets[macs[i]].site);
    }
  }

  /** Complete coverage confirms the deployment on every device an obligation targets. */
  lemma CompleteCoverageConfirmsDeployment(ledger: Ledger, reported: map<nat, Status>, replay: Replay,
                                           receipts: seq<Receipt>, frame: Frame, macs: seq<Name>,
                                           targets: map<Name, Target>, o: Obligation)
    requires Shaped(ledger) && CoverageOf(ledger, reported) == Complete
    requires AllPaired(replay.devices, receipts, frame, macs, targets)
    requires replay.preconditions == Preconditions(ledger.obligations)
    requires forall id | id in Statuses(replay) && id in reported :: reported[id] == Statuses(replay)[id]
    requires o in ledger.obligations && o.kind == DeploymentKind && o.target.device.Some?
    requires o.target.device.value in macs
    ensures Confirmed(receipts, frame, o.target.device.value)
  {
    ShapedComplete(ledger, reported);
    assert o.id in reported && reported[o.id].value == Satisfied;
    PreconditionsName(ledger.obligations);
    SatisfiedStatusIsConfirmed(replay.devices, receipts, frame, macs, targets, o.target.device.value);
    assert o.id in Statuses(replay);
  }

  // The order receipts arrive in.

  ghost predicate DistinctReceipts(receipts: seq<Receipt>) {
    forall a, b | a in receipts && b in receipts && a.id == b.id :: a == b
  }

  lemma {:induction false} EventsCounted(receipts: seq<Receipt>)
    ensures multiset(EventsOf(receipts)) == Evidence.Categories(receipts, EventOf)
  {
    if receipts != [] {
      var before, last := receipts[..|receipts| - 1], receipts[|receipts| - 1];
      EventsCounted(before);
      Evidence.CategoriesAppend(before, [last], EventOf);
      Evidence.CategoriesOne(last, EventOf);
      assert receipts == before + [last];
    }
  }

  lemma {:induction false} EventComes(receipts: seq<Receipt>, e: Event) returns (r: Receipt)
    requires e in EventsOf(receipts)
    ensures r in receipts && EventOf(r) == e
  {
    var before, last := receipts[..|receipts| - 1], receipts[|receipts| - 1];
    assert receipts == before + [last];
    if e in EventsOf(before) {
      r := EventComes(before, e);
    } else {
      r := last;
    }
  }

  /** One device's events depend on which receipts arrived alone. */
  lemma EventsArrive(s: seq<Receipt>, t: seq<Receipt>, mac: Name, frame: Frame)
    requires multiset(s) == multiset(t) && DistinctReceipts(s)
    ensures DeviceEvents(s, mac, frame) == DeviceEvents(t, mac, frame)
  {
    var one, two := Filter(s, RelevantTo(mac, frame)), Filter(t, RelevantTo(mac, frame));
    FilterPermuted(s, RelevantTo(mac, frame));
    FilterPermuted(t, RelevantTo(mac, frame));
    assert multiset(one) == multiset(two);
    Evidence.CategoriesPermuted(one, two, EventOf);
    EventsCounted(one);
    EventsCounted(two);
    FilterMembers(s, RelevantTo(mac, frame));
    forall a, b | a in EventsOf(one) && b in EventsOf(one) && a.id == b.id
      ensures a == b
    {
      var x := EventComes(one, a);
      var y := EventComes(one, b);
      assert x in s && y in s && x.id == y.id;
    }
    ArrivalOrderIrrelevant(EventsOf(one), EventsOf(two));
  }

  lemma SeverityUnique(devices: seq<DeviceDeployment>, peak: Band, current: Band, peak': Band, current': Band)
    requires SeverityOf(devices, peak, current) && SeverityOf(devices, peak', current')
    ensures peak == peak' && current == current'
  {
    assert Rank(peak) == Rank(peak') && Rank(current) == Rank(current');
    RankInjective(peak, peak');
    RankInjective(current, current');
  }

  /** The whole replay depends on which receipts arrived, not on the order they arrived in. */
  lemma ReceiptOrderIrrelevant(s: seq<Receipt>, t: seq<Receipt>, one: Replay, two: Replay, frame: Frame, ledger: Ledger,
                               macs: seq<Name>, targets: map<Name, Target>)
    requires multiset(s) == multiset(t) && DistinctReceipts(s)
    requires AllPaired(one.devices, s, frame, macs, targets) && SummedUp(one, s, frame, ledger)
    requires AllPaired(two.devices, t, frame, macs, targets) && SummedUp(two, t, frame, ledger)
    ensures one == two
  {
    forall i | 0 <= i < |macs|
      ensures one.devices[i] == two.devices[i]
    {
      var site := targets[macs[i]].site;
      assert PairedFor(one.devices[i], s, frame, macs[i], site) && PairedFor(two.devices[i], t, frame, macs[i], site);
      EventsArrive(s, t, macs[i], frame);
      RecordUnique(one.devices[i], two.devices[i], macs[i], site, DeviceEvents(s, macs[i], frame), frame.auditId);
    }
    assert one.devices == two.devices;
    SeverityUnique(one.devices, one.peak, one.current, two.peak, two.current);
    forall named: (GapKind, Name)
      ensures named in one.gaps <==> named in two.gaps
    {
      var (g, mac) := named;
      EventsArrive(s, t, mac, frame);
      assert GapOn(g, mac, one.devices, s, frame) <==> GapOn(g, mac, two.devices, t, frame);
    }
  }
}
