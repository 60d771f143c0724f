/** The whole judgement of a device, field by field, and what of its events its record shows. */
module DeploymentJudgement {
  import opened Contracts
  import opened Ordering
  import opened Obligations
  import opened Conclusions
  import opened Targeting
  import opened Ledger
  import opened Deployment
  import opened DeploymentTheorems
  import opened DeploymentReplay

  // The judgement.

  /** An uncertain outcome that may be the latest: nothing assigned is later. */
  ghost predicate MayBeLast(u: Uncertain, paired: seq<Assigned>) {
    forall a | a in paired :: a.event.second <= u.event.second
  }

  ghost predicate Unsettled(paired: seq<Assigned>, uncertain: seq<Uncertain>, doubt: Doubt) {
    exists u :: u in uncertain && MayBeLast(u, paired) && u.doubt == doubt
  }

  ghost predicate Settled(paired: seq<Assigned>, uncertain: seq<Uncertain>) {
    forall u | u in uncertain :: !MayBeLast(u, paired)
  }

  /** Every latest assigned outcome is of this kind. */
  ghost predicate AllLatest(paired: seq<Assigned>, kind: OutcomeKind)
    requires AllOutcomes(paired)
  {
    paired != [] && forall a | AmongLatest(a, paired) :: KindOf(a) == kind
  }

  lemma UnsettledMeans(paired: seq<Assigned>, uncertain: seq<Uncertain>)
    ensures forall u :: Unsettles(u, LastSecond(paired)) <==> MayBeLast(u, paired)
  {
    LastSecondIsLatest(paired);
  }

  lemma LatestMeans(paired: seq<Assigned>, kind: OutcomeKind)
    requires AllOutcomes(paired) && paired != []
    ensures LastSecond(paired).Some? && (FinalKinds(paired, LastSecond(paired).value) == {kind} <==> AllLatest(paired, kind))
    ensures exists a :: AmongLatest(a, paired)
  {
    LastSecondIsLatest(paired);
    var last := LastSecond(paired).value;
    var m :| m in paired && m.event.second == last;
    assert AmongLatest(m, paired) && KindOf(m) in FinalKinds(paired, last);
    forall a | a in paired
      ensures AmongLatest(a, paired) <==> a.event.second == last
    {
    }
    if AllLatest(paired, kind) {
      assert forall k | k in FinalKinds(paired, last) :: k == kind;
      assert FinalKinds(paired, last) == {kind};
    }
    if FinalKinds(paired, last) == {kind} {
      forall a | AmongLatest(a, paired)
        ensures KindOf(a) == kind
      {
        assert KindOf(a) in FinalKinds(paired, last);
      }
    }
  }

  /** Why a precondition is not satisfied: nothing triggered it; an outcome that may be the latest is uncertain, by the
      receipt's time or by another change's trigger; nothing came of it; what came last conflicts; or it failed or was
      reverted. */
  lemma ReasonExactly(hasTrigger: bool, paired: seq<Assigned>, uncertain: seq<Uncertain>)
    requires AllOutcomes(paired)
    ensures var j := Judge(hasTrigger, paired, uncertain);
            && (j.reason == Some(NoTrigger) <==> !hasTrigger)
            && (j.reason == Some(ReceiptTimeOnly) <==> hasTrigger && Unsettled(paired, uncertain, ByReceiptTime))
            && (j.reason == Some(AmbiguousTriggers)
                <==> hasTrigger && !Unsettled(paired, uncertain, ByReceiptTime)
                     && Unsettled(paired, uncertain, ByOtherTrigger))
            && (j.reason == Some(NoOutcome) <==> hasTrigger && Settled(paired, uncertain) && paired == [])
            && (j.reason == Some(LatestFailed)
                <==> hasTrigger && Settled(paired, uncertain) && AllLatest(paired, Failed))
            && (j.reason == Some(LatestReverted)
                <==> hasTrigger && Settled(paired, uncertain) && AllLatest(paired, Reverted))
            && (j.reason.None? <==> hasTrigger && Settled(paired, uncertain) && AllLatest(paired, Configured))
            && (j.reason == Some(ConflictingOutcomes)
                <==> hasTrigger && Settled(paired, uncertain) && paired != [] && !AllLatest(paired, Configured)
                     && !AllLatest(paired, Failed) && !AllLatest(paired, Reverted))
  {
    UnsettledMeans(paired, uncertain);
    LastSecondIsLatest(paired);
    if paired != [] {
      LatestMeans(paired, Configured);
      LatestMeans(paired, Failed);
      LatestMeans(paired, Reverted);
    }
  }

  /** The reason fixes the state, the state the correlation, and a recovery is a satisfied device with trouble behind it. */
  lemma StateExactly(hasTrigger: bool, paired: seq<Assigned>, uncertain: seq<Uncertain>)
    requires AllOutcomes(paired)
    ensures var j := Judge(hasTrigger, paired, uncertain);
            && (j.state == Unknown <==> j.reason in {Some(NoTrigger), Some(NoOutcome)})
            && (j.state == IsConfigured <==> j.reason.None?)
            && (j.state == IsFailed <==> j.reason == Some(LatestFailed))
            && (j.state == IsReverted <==> j.reason == Some(LatestReverted))
            && (j.satisfied <==> j.reason.None?)
            && (j.recovered <==> j.satisfied && exists a :: a in paired && KindOf(a) in {Failed, Reverted})
            && (j.correlation == NotCorrelated <==> j.state == Unknown)
            && (j.correlation == AmbiguousCorrelation <==> j.reason in {Some(ReceiptTimeOnly), Some(AmbiguousTriggers)})
            && (j.correlation == CorrelatedByAudit
                <==> j.reason !in {Some(NoTrigger), Some(NoOutcome), Some(ReceiptTimeOnly), Some(AmbiguousTriggers)}
                     && exists a :: a in paired && a.link == ByAudit)
  {
    JudgementHolds(hasTrigger, paired, uncertain);
    LastSecondIsLatest(paired);
    if paired != [] {
      LatestMeans(paired, Configured);
      LatestMeans(paired, Failed);
      LatestMeans(paired, Reverted);
    }
  }

  // The trigger shown.

  /** The trigger shown: of those with a provider's time one that no other is after, else the last one of all. */
  lemma ShownExactly(own: seq<Event>)
    ensures Shown(own).None? <==> own == []
    ensures forall t | Shown(own) == Some(t) ::
              && t in own
              && (t.timed <==> exists u :: u in own && u.timed)
              && (t.timed ==> forall u | u in own && u.timed :: EventLeq(u, t))
              && (!t.timed ==> own != [] && t == own[|own| - 1])
  {
    FilterMembers(own, (e: Event) => e.timed);
    if Timed(own) != [] {
      LatestIsLast(Timed(own));
    }
    forall u | u in own && u.timed
      ensures u in Timed(own)
    {
    }
  }

  lemma {:induction false} LatestIsLast(events: seq<Event>)
    requires events != []
    ensures Latest(events) in events && forall e | e in events :: EventLeq(e, Latest(events))
  {
    EventOrder();
    if |events| > 1 {
      var before := events[..|events| - 1];
      LatestIsLast(before);
      assert events == before + [events[|events| - 1]];
    } else {
      assert EventLeq(events[0], events[0]);
    }
  }

  lemma {:induction false} EarliestIsFirst(events: seq<Event>)
    requires events != []
    ensures Earliest(events) in events && forall e | e in events :: EventLeq(Earliest(events), e)
  {
    EventOrder();
    if |events| > 1 {
      var before := events[..|events| - 1];
      EarliestIsFirst(before);
      assert events == before + [events[|events| - 1]];
    } else {
      assert EventLeq(events[0], events[0]);
    }
  }

  /** A trigger of this audit, user's or not: any event that is no outcome and carries it. */
  lemma OwnExactly(events: seq<Event>, audit: Name, t: Event)
    ensures t in OwnTriggers(events, audit) <==> t in events && !t.eventType.Outcome? && t.auditId == Some(audit)
  {
    FilterMembers(events, (e: Event) => !IsOutcome(e) && e.auditId == Some(audit));
  }

  // The outcomes shown.

  predicate OfGroup(a: Assigned, o: PairedOutcome) {
    a.event.eventType.Outcome? && a.event.second == o.second && a.event.eventType.kind == o.kind
  }

  function CountOf(paired: seq<Assigned>, o: PairedOutcome): nat {
    if paired == [] then 0 else (if OfGroup(paired[0], o) then 1 else 0) + CountOf(paired[1..], o)
  }

  lemma {:induction false} GroupCounts(paired: seq<Assigned>, key: GroupKey, o: PairedOutcome)
    requires key == GroupKey(o.second, o.kind)
    ensures |Group(paired, key)| == CountOf(paired, o)
  {
    if paired != [] {
      GroupCounts(paired[1..], key, o);
      GroupSplits(paired, key);
    }
  }

  lemma GroupSplits(paired: seq<Assigned>, key: GroupKey)
    requires paired != []
    ensures Group(paired, key) == (if InGroup(paired[0], key) then [paired[0]] else []) + Group(paired[1..], key)
  {
    FilterAgree(paired[1..], (a: Assigned) => InGroup(a, key), (a: Assigned) => InGroup(a, key));
  }

  /** Each group shown counts the assigned outcomes of its second and kind, is linked by audit when one of them is, and
      has the type of the first of them. */
  lemma GroupExactly(paired: seq<Assigned>, key: GroupKey)
    requires AllOutcomes(paired) && Group(paired, key) != []
    ensures var o := GroupOutcome(paired, key);
            && o.second == key.second && o.kind == key.kind && o.count == CountOf(paired, o)
            && (o.link == ByAudit <==> exists a :: a in paired && OfGroup(a, o) && a.link == ByAudit)
            && exists a :: a in paired && OfGroup(a, o) && o.eventType == a.event.eventType
                           && forall b | b in paired && OfGroup(b, o) :: EventLeq(a.event, b.event)
  {
    var o, group := GroupOutcome(paired, key), Group(paired, key);
    FilterMembers(paired, (a: Assigned) => InGroup(a, key));
    GroupCounts(paired, key, o);
    var events := EventsIn(group);
    EarliestIsFirst(events);
    var i :| 0 <= i < |events| && events[i] == Earliest(events);
    assert group[i] in group;
    forall b | b in paired && OfGroup(b, o)
      ensures EventLeq(group[i].event, b.event)
    {
      assert b in group;
      var k :| 0 <= k < |group| && group[k] == b;
      assert events[k] in events;
    }
  }

  predicate GroupBefore(a: PairedOutcome, b: PairedOutcome) {
    a.second < b.second || (a.second == b.second && KindRank(a.kind) < KindRank(b.kind))
  }

  /** One group for every second and kind of an assigned outcome. */
  lemma OutcomesExactly(paired: seq<Assigned>)
    requires AllOutcomes(paired)
    ensures forall a | a in paired :: exists k :: 0 <= k < |Outcomes(paired)| && OfGroup(a, Outcomes(paired)[k])
    ensures forall o | o in Outcomes(paired) ::
              Group(paired, GroupKey(o.second, o.kind)) != [] && o == GroupOutcome(paired, GroupKey(o.second, o.kind))
  {
    var keys := Prioritized(GroupKeys(paired), KeyLeq);
    GroupOutcomesDefined(paired);
    GroupKeysName(paired);
    SortedMembers(GroupKeys(paired), KeyLeq);
    forall a | a in paired
      ensures exists k :: 0 <= k < |Outcomes(paired)| && OfGroup(a, Outcomes(paired)[k])
    {
      assert InGroup(a, KeyOf(a));
      assert KeyOf(a) in keys;
      var k :| 0 <= k < |keys| && keys[k] == KeyOf(a);
      assert OfGroup(a, Outcomes(paired)[k]);
    }
  }

  /** The groups come by second, and in one second configured before failed before reverted. */
  lemma OutcomesInOrder(paired: seq<Assigned>)
    requires AllOutcomes(paired)
    ensures forall k, l | 0 <= k < l < |Outcomes(paired)| :: GroupBefore(Outcomes(paired)[k], Outcomes(paired)[l])
  {
    var keys := Prioritized(GroupKeys(paired), KeyLeq);
    GroupKeysName(paired);
    SortedMembers(GroupKeys(paired), KeyLeq);
    KeysOrdered();
    PrioritizedOrdered(GroupKeys(paired), KeyLeq);
    forall k, l | 0 <= k < l < |keys|
      ensures GroupBefore(Outcomes(paired)[k], Outcomes(paired)[l])
    {
      OrderedAt(keys, KeyLeq, k, l);
      assert keys[k] != keys[l];
    }
  }

  lemma KeysOrdered()
    ensures Total(KeyLeq) && Transitive(KeyLeq)
    ensures KindRank(Configured) < KindRank(Failed) < KindRank(Reverted)
  {
  }

  // Receipts.

  /** What of a device's receipts pairing looks at: triggers and outcomes received by the evidence instant, placed within
      the half hour before the change and that instant. */
  lemma RelevantExactly(r: Receipt, mac: Name, frame: Frame)
    ensures Relevant(r, mac, frame)
       <==> && r.mac == mac && r.receivedAt <= frame.asOf
            && (r.eventType.UserTrigger? || r.eventType.RrmTrigger? || r.eventType.Outcome?)
            && var told := if r.occurredAt.Some? then r.occurredAt.value else r.receivedAt;
               frame.changedAt - frame.changedAt % 1000 - 30 * 60_000 <= told - told % 1000
               && told - told % 1000 <= frame.asOf
  {
  }

  /** The receipt reports a user's configuration of the device under this audit, received by the evidence instant. */
  predicate Reports(r: Receipt, mac: Name, audit: Name, asOf: int) {
    r.mac == mac && r.eventType.UserTrigger? && r.auditId == Some(audit) && r.receivedAt <= asOf
  }

  /** Placed no later: in an earlier second, or received earlier, or with a lesser id. */
  predicate PlacedBy(a: Receipt, b: Receipt) {
    var s, t := EventOf(a).second, EventOf(b).second;
    if s != t then s < t
    else if a.receivedAt != b.receivedAt then a.receivedAt < b.receivedAt
    else NameLeq(a.id, b.id)
  }

  /** The expected devices are exactly those some receipt reports, each at the site of the report placed last. */
  lemma ExpectedExactly(devices: seq<ExpectedDevice>, receipts: seq<Receipt>, audit: Name, asOf: int, mac: Name)
    requires ExpectedFor(devices, receipts, audit, asOf)
    ensures ListsMac(devices, mac) <==> exists r :: r in receipts && Reports(r, mac, audit, asOf)
    ensures forall d | d in devices && d.mac == mac ::
              exists r :: r in receipts && Reports(r, mac, audit, asOf) && d.site == r.site
                          && forall other | other in receipts && Reports(other, mac, audit, asOf) :: PlacedBy(other, r)
  {
    if r :| r in receipts && Reports(r, mac, audit, asOf) {
      assert Triggers(r, audit, asOf);
    }
    forall d | d in devices && d.mac == mac
      ensures exists r :: r in receipts && Reports(r, mac, audit, asOf) && d.site == r.site
                          && forall other | other in receipts && Reports(other, mac, audit, asOf) :: PlacedBy(other, r)
    {
      assert ExpectedFrom(d, receipts, audit, asOf);
      var r :| LatestTrigger(r, receipts, audit, asOf) && d == ExpectedDevice(r.mac, r.site);
      assert Reports(r, mac, audit, asOf);
      forall other | other in receipts && Reports(other, mac, audit, asOf)
        ensures PlacedBy(other, r)
      {
        assert Triggers(other, audit, asOf) && NotLater(other, r);
      }
    }
  }

  /** The conclusion names exactly the devices that warned, each with its peak. */
  lemma {:induction false} ImpactedExactly(devices: seq<DeviceDeployment>, i: DeviceImpact)
    ensures i in Impacted(devices)
       <==> i.evidence == [] && exists d :: d in devices && d.mac == i.mac && d.judgement.peak == i.severity
                                            && i.severity != NoImpact
  {
    if devices != [] {
      ImpactedExactly(devices[1..], i);
      assert forall d :: d in devices <==> d == devices[0] || d in devices[1..];
    }
  }

  /** The conclusion's bands are the worst peak and the worst current judged of its devices, and each status is that of the
      precondition's own device. */
  lemma ConcludedExactly(replay: Replay, receipts: seq<Receipt>, frame: Frame, macs: seq<Name>,
                         targets: map<Name, Target>, id: nat)
    requires AllPaired(replay.devices, receipts, frame, macs, targets)
    requires SeverityOf(replay.devices, replay.peak, replay.current)
    ensures SeverityOf(replay.devices, Concluded(replay).peak, Concluded(replay).current)
    ensures id in Concluded(replay).statuses
       <==> id in replay.preconditions && exists d :: d in replay.devices && d.mac == replay.preconditions[id]
    ensures id in Concluded(replay).statuses ==>
              exists d :: d in replay.devices && d.mac == replay.preconditions[id]
                          && Concluded(replay).statuses[id]
                             == Status(if d.judgement.reason.None? then Satisfied else Unsatisfied, d.judgement.reason)
  {
    if id in replay.preconditions {
      DeviceAtFinds(replay.devices, replay.preconditions[id]);
    }
    if id in Concluded(replay).statuses {
      var d := DeviceAt(replay.devices, replay.preconditions[id]).value;
      var k :| 0 <= k < |replay.devices| && replay.devices[k] == d;
      assert PairedFor(replay.devices[k], receipts, frame, macs[k], targets[macs[k]].site);
      var paired, uncertain :| DeviceOf(d, macs[k], targets[macs[k]].site, DeviceEvents(receipts, macs[k], frame),
                                        frame.auditId, paired, uncertain);
      StateExactly(OwnTriggers(DeviceEvents(receipts, macs[k], frame), frame.auditId) != [], paired, uncertain);
    }
  }

  /** The provider told when this audit configured some device. */
  predicate Told(r: Receipt, audit: Name, asOf: int) {
    Reports(r, r.mac, audit, asOf) && r.occurredAt.Some?
  }

  /** The change is anchored at the audit's own time if it has one, else in the earliest second the provider told of a
      report of it, else at its receipt. */
  lemma AnchorExactly(receipts: seq<Receipt>, audit: Name, auditTime: Option<int>, receivedAt: int, asOf: int)
    ensures var anchor := ResolveAnchor(receipts, audit, auditTime, receivedAt, asOf);
            if auditTime.Some? then anchor == Anchor(auditTime.value, AuditTime)
            else if forall r | r in receipts :: !Told(r, audit, asOf) then anchor == Anchor(receivedAt, ReceiptTime)
            else && anchor.source == DeviceTriggerTime
                 && (exists r :: r in receipts && Told(r, audit, asOf) && SecondOf(r) == anchor.changedAt)
                 && (forall r | r in receipts && Told(r, audit, asOf) :: anchor.changedAt <= SecondOf(r))
  {
    var timed := (r: Receipt) => TimesChange(r, audit, asOf);
    FilterMembers(receipts, timed);
    EarliestSecondMeans(Filter(receipts, timed));
    assert forall r :: timed(r) <==> Told(r, audit, asOf);
    if Filter(receipts, timed) != [] {
      assert Filter(receipts, timed)[0] in Filter(receipts, timed);
    }
  }

  function SecondOf(r: Receipt): int {
    EventOf(r).second
  }
}
