/** What pairing guarantees: a satisfied precondition rests on a provider-timed trigger and outcome, an outcome belongs
    to at most one audit, and neither arrival order nor a repeated receipt changes the judgement. */
module DeploymentTheorems {
  import opened Contracts
  import opened Ordering
  import opened Obligations
  import opened Deployment

  // Soundness.

  /** A provider-timed trigger of the audit at or before the outcome. */
  predicate TriggeredBy(t: Event, outcome: Event, audit: Name) {
    !IsOutcome(t) && t.auditId == Some(audit) && t.timed && outcome.timed && t.second <= outcome.second
  }

  /** An assigned outcome always has a provider-timed trigger of the audit at or before its own provider time. */
  lemma AssignedHasTrigger(outcome: Event, events: seq<Event>, audit: Name)
    requires Pair(outcome, TriggersOf(events), audit).Assign?
    ensures exists t :: t in events && TriggeredBy(t, outcome, audit)
    ensures Pair(outcome, TriggersOf(events), audit).link == ByAudit <==> outcome.auditId == Some(audit)
    ensures outcome.auditId.None? || outcome.auditId == Some(audit)
  {
    var triggers := TriggersOf(events);
    FilterMembers(events, (e: Event) => !IsOutcome(e));
    if outcome.auditId.Some? {
      var t :| t in triggers && Confirms(t, outcome);
      assert t in events && TriggeredBy(t, outcome, audit);
    } else {
      var found := FallbackTriggers(outcome, triggers);
      FallbackMembers(outcome, triggers);
      assert OfAudit(audit) in set t | t in found :: IdentityOf(t);
      var t :| t in found && IdentityOf(t) == OfAudit(audit);
      assert t in events && TriggeredBy(t, outcome, audit);
    }
  }

  lemma FallbackMembers(outcome: Event, triggers: seq<Event>)
    ensures forall t :: t in FallbackTriggers(outcome, triggers) <==> t in triggers && MayBeLatest(t, outcome, triggers)
  {
    FilterMembers(triggers, Possible(outcome));
    FilterMembers(Filter(triggers, Possible(outcome)), NotSuperseded(outcome, triggers));
  }

  /** The outcome is the latest assigned one, nothing else of another kind is in its second, and no uncertain outcome
      is at or after it. */
  ghost predicate Decides(a: Assigned, paired: seq<Assigned>, uncertain: seq<Uncertain>)
    requires AllOutcomes(paired)
  {
    && a in paired
    && (forall b | b in paired :: b.event.second <= a.event.second)
    && (forall b | b in paired && b.event.second == a.event.second :: KindOf(b) == KindOf(a))
    && (forall u | u in uncertain :: u.event.second < a.event.second)
  }

  /** The state machine is satisfied exactly when a configured outcome decides. */
  lemma SatisfiedExactly(hasTrigger: bool, paired: seq<Assigned>, uncertain: seq<Uncertain>)
    requires AllOutcomes(paired)
    ensures Judge(hasTrigger, paired, uncertain).satisfied
       <==> hasTrigger && exists a :: Decides(a, paired, uncertain) && KindOf(a) == Configured
  {
    LastSecondIsLatest(paired);
    var last := LastSecond(paired);
    if last.Some? {
      var final := FinalKinds(paired, last.value);
      var m :| m in paired && m.event.second == last.value;
      assert KindOf(m) in final;
      if Judge(hasTrigger, paired, uncertain).satisfied {
        assert final == {Configured};
        assert forall b | b in paired && b.event.second == m.event.second :: KindOf(b) in final;
        assert Decides(m, paired, uncertain) && KindOf(m) == Configured;
      }
      if a :| Decides(a, paired, uncertain) && KindOf(a) == Configured {
        assert a.event.second == last.value;
        assert forall k | k in final :: k == Configured;
        assert KindOf(a) in final;
        assert final == {Configured};
      }
    }
  }

  /** The outcome is one of the latest assigned. */
  ghost predicate AmongLatest(a: Assigned, paired: seq<Assigned>) {
    a in paired && forall b | b in paired :: b.event.second <= a.event.second
  }

  /** Some latest outcome is known: no uncertain one is at or after it. */
  ghost predicate LatestKnown(paired: seq<Assigned>, uncertain: seq<Uncertain>) {
    exists a :: AmongLatest(a, paired) && forall u | u in uncertain :: u.event.second < a.event.second
  }

  /** A device warns exactly when one of its outcomes failed or was reverted, and still does exactly when every latest
      outcome did and is known to be the latest. */
  lemma SeverityExactly(hasTrigger: bool, paired: seq<Assigned>, uncertain: seq<Uncertain>)
    requires AllOutcomes(paired)
    ensures var j := Judge(hasTrigger, paired, uncertain);
            && j.peak in {NoImpact, Warning} && j.current in {NoImpact, Warning}
            && (j.peak == Warning <==> hasTrigger && exists a :: a in paired && Troubled(KindOf(a)))
            && (j.current == Warning
                <==> hasTrigger && LatestKnown(paired, uncertain)
                     && forall a | AmongLatest(a, paired) :: Troubled(KindOf(a)))
  {
    LastSecondIsLatest(paired);
    var last := LastSecond(paired);
    if last.Some? {
      var m :| m in paired && m.event.second == last.value;
      assert AmongLatest(m, paired);
      assert forall a | AmongLatest(a, paired) :: a.event.second == last.value;
      LatestKinds(paired, last.value);
      assert LatestKnown(paired, uncertain) <==> forall u | u in uncertain :: !Unsettles(u, last);
    }
  }

  lemma LatestKinds(paired: seq<Assigned>, last: int)
    requires AllOutcomes(paired) && LastSecond(paired) == Some(last)
    ensures FinalKinds(paired, last) != {}
    ensures Configured !in FinalKinds(paired, last) <==> forall a | AmongLatest(a, paired) :: Troubled(KindOf(a))
  {
    LastSecondIsLatest(paired);
    var m :| m in paired && m.event.second == last;
    assert AmongLatest(m, paired) && KindOf(m) in FinalKinds(paired, last);
    if Configured in FinalKinds(paired, last) {
      var a :| a in paired && a.event.second == last && KindOf(a) == Configured;
      assert AmongLatest(a, paired);
    }
    forall a | AmongLatest(a, paired)
      ensures KindOf(a) in FinalKinds(paired, last)
    {
    }
  }

  /** A satisfied precondition rests on a provider-timed configured outcome that decides, at or after a provider-timed
      trigger of this audit. */
  lemma SatisfiedIsSound(events: seq<Event>, audit: Name, hasTrigger: bool, paired: seq<Assigned>,
                         uncertain: seq<Uncertain>)
    returns (t: Event, a: Assigned)
    requires AssignedOf(paired, events, TriggersOf(events), audit)
    requires UncertainOf(uncertain, events, TriggersOf(events), audit)
    requires AllOutcomes(paired) && Judge(hasTrigger, paired, uncertain).satisfied
    ensures t in events && a.event in events && TriggeredBy(t, a.event, audit)
    ensures Decides(a, paired, uncertain) && KindOf(a) == Configured
  {
    SatisfiedExactly(hasTrigger, paired, uncertain);
    a :| Decides(a, paired, uncertain) && KindOf(a) == Configured;
    AssignedMembers(paired, events, TriggersOf(events), audit);
    AssignedHasTrigger(a.event, events, audit);
    t :| t in events && TriggeredBy(t, a.event, audit);
  }

  /** Over one list of events, no outcome is assigned to two audits. */
  lemma OneAuditEach(outcome: Event, triggers: seq<Event>, a: Name, b: Name)
    requires Pair(outcome, triggers, a).Assign? && Pair(outcome, triggers, b).Assign?
    ensures a == b
  {
    if outcome.auditId.None? {
      var identities := set t | t in FallbackTriggers(outcome, triggers) :: IdentityOf(t);
      assert identities == {OfAudit(a)} && identities == {OfAudit(b)};
      assert OfAudit(a) in identities;
    }
  }

  /** With provider times alone: exactly the triggers in the outcome's own second and those in the latest earlier one,
      within the bound. */
  lemma FallbackExactly(outcome: Event, triggers: seq<Event>, t: Event)
    requires outcome.timed && forall u | u in triggers :: u.timed
    ensures t in FallbackTriggers(outcome, triggers)
       <==> && t in triggers
            && 0 <= outcome.second - t.second <= PAIRING_BOUND
            && (t.second == outcome.second
                || forall u | u in triggers && u.second < outcome.second :: u.second <= t.second)
  {
    FallbackMembers(outcome, triggers);
    if t in triggers && 0 <= outcome.second - t.second <= PAIRING_BOUND {
      assert (exists u | u in triggers :: SurelyBetween(u, t, outcome))
        <==> exists u | u in triggers :: t.second < u.second < outcome.second;
    }
  }

  // One device.

  /** Outcomes of one kind in one second. */
  datatype PairedOutcome = PairedOutcome(kind: OutcomeKind, eventType: EventType, second: int, link: Link, count: nat)

  datatype DeviceDeployment = DeviceDeployment(
    mac: Name,
    site: Option<Name>,
    trigger: Option<EventType>,
    triggeredAt: Option<int>,
    outcomes: seq<PairedOutcome>,
    judgement: Judgement)

  /** The latest of the events; the first of equal ones. */
  function Latest(events: seq<Event>): Event
    requires events != []
  {
    if |events| == 1 then events[0]
    else
      var before := Latest(events[..|events| - 1]);
      var last := events[|events| - 1];
      if EventLeq(last, before) then before else last
  }

  function Earliest(events: seq<Event>): Event
    requires events != []
  {
    if |events| == 1 then events[0]
    else
      var before := Earliest(events[..|events| - 1]);
      var last := events[|events| - 1];
      if EventLeq(before, last) then before else last
  }

  function OwnTriggers(events: seq<Event>, audit: Name): seq<Event> {
    Filter(events, (e: Event) => !IsOutcome(e) && e.auditId == Some(audit))
  }

  function Timed(events: seq<Event>): seq<Event> {
    Filter(events, (e: Event) => e.timed)
  }

  /** The trigger shown: the latest provider-timed one, else the last one. */
  function Shown(own: seq<Event>): Option<Event> {
    if Timed(own) != [] then Some(Latest(Timed(own)))
    else if own != [] then Some(own[|own| - 1])
    else None
  }

  datatype GroupKey = GroupKey(second: int, kind: OutcomeKind)

  function KindRank(kind: OutcomeKind): nat {
    match kind case Configured => 0 case Failed => 1 case Reverted => 2
  }

  predicate KeyLeq(a: GroupKey, b: GroupKey) {
    a.second < b.second || (a.second == b.second && KindRank(a.kind) <= KindRank(b.kind))
  }

  predicate InGroup(a: Assigned, key: GroupKey) {
    IsOutcome(a.event) && a.event.second == key.second && KindOf(a) == key.kind
  }

  function Group(paired: seq<Assigned>, key: GroupKey): seq<Assigned> {
    Filter(paired, (a: Assigned) => InGroup(a, key))
  }

  function KeyOf(a: Assigned): GroupKey
    requires IsOutcome(a.event)
  {
    GroupKey(a.event.second, KindOf(a))
  }

  /** The groups in the order they are first seen. */
  function GroupKeys(paired: seq<Assigned>): seq<GroupKey>
    requires AllOutcomes(paired)
  {
    if paired == [] then []
    else
      var before := GroupKeys(paired[..|paired| - 1]);
      assert paired[|paired| - 1] in paired;
      var key := KeyOf(paired[|paired| - 1]);
      if key in before then before else before + [key]
  }

  function EventsIn(group: seq<Assigned>): seq<Event> {
    seq(|group|, i requires 0 <= i < |group| => group[i].event)
  }

  function GroupOutcome(paired: seq<Assigned>, key: GroupKey): PairedOutcome
    requires Group(paired, key) != []
  {
    var group := Group(paired, key);
    PairedOutcome(key.kind, Earliest(EventsIn(group)).eventType, key.second,
                  if exists a | a in group :: a.link == ByAudit then ByAudit else ByTime, |group|)
  }

  lemma {:induction false} GroupKeysName(paired: seq<Assigned>)
    requires AllOutcomes(paired)
    ensures Distinct(GroupKeys(paired))
    ensures forall key :: key in GroupKeys(paired) <==> exists a :: a in paired && InGroup(a, key)
  {
    if paired != [] {
      var before := paired[..|paired| - 1];
      var last := paired[|paired| - 1];
      GroupKeysName(before);
      assert last in paired;
      assert forall a :: a in paired <==> a in before || a == last;
      assert InGroup(last, KeyOf(last));
    }
  }

  lemma GroupOutcomesDefined(paired: seq<Assigned>)
    requires AllOutcomes(paired)
    ensures forall key | key in Prioritized(GroupKeys(paired), KeyLeq) :: Group(paired, key) != []
  {
    GroupKeysName(paired);
    SortedMembers(GroupKeys(paired), KeyLeq);
    forall key | key in GroupKeys(paired)
      ensures Group(paired, key) != []
    {
      FilterMembers(paired, (a: Assigned) => InGroup(a, key));
      var a :| a in paired && InGroup(a, key);
      assert a in Group(paired, key);
    }
  }

  /** One paired outcome per kind and second, in order. */
  function Outcomes(paired: seq<Assigned>): seq<PairedOutcome>
    requires AllOutcomes(paired)
  {
    GroupOutcomesDefined(paired);
    var keys := Prioritized(GroupKeys(paired), KeyLeq);
    seq(|keys|, i requires 0 <= i < |keys| => GroupOutcome(paired, keys[i]))
  }

  /** The same fields, without the gaps found on the way. */
  ghost predicate DeviceOf(d: DeviceDeployment, mac: Name, site: Option<Name>, events: seq<Event>, audit: Name,
                           paired: seq<Assigned>, uncertain: seq<Uncertain>)
  {
    var own := OwnTriggers(events, audit);
    && AssignedOf(paired, events, TriggersOf(events), audit)
    && UncertainOf(uncertain, events, TriggersOf(events), audit)
    && AllOutcomes(paired)
    && d.mac == mac && d.site == site
    && d.trigger == (if Shown(own).None? then None else Some(Shown(own).value.eventType))
    && d.triggeredAt == (if Shown(own).Some? && Shown(own).value.timed then Some(Shown(own).value.second) else None)
    && d.outcomes == Outcomes(paired)
    && d.judgement == Judge(own != [], paired, uncertain)
  }

  /** Some outcome may be this audit's and could not be paired to it, for this reason. */
  ghost predicate Doubted(events: seq<Event>, audit: Name, doubt: Doubt) {
    exists e :: e in events && IsOutcome(e) && Pair(e, TriggersOf(events), audit) == Unsure(doubt)
  }

  /** A gap pairing itself raised, or one for an outcome that may be this trigger's and could not be assigned. */
  ghost predicate GapFound(g: GapKind, events: seq<Event>, audit: Name, j: Judgement) {
    || LeavesGap(g, events, TriggersOf(events), audit)
    || (OwnTriggers(events, audit) != []
        && ((g == ReceiptTimeGap && Doubted(events, audit, ByReceiptTime))
            || (g == AmbiguousGap
                && (Doubted(events, audit, ByOtherTrigger) || j.reason == Some(ConflictingOutcomes)))))
  }

  /** The record these events define. */
  ghost predicate PairedAs(d: DeviceDeployment, mac: Name, site: Option<Name>, events: seq<Event>, audit: Name) {
    exists paired, uncertain :: DeviceOf(d, mac, site, events, audit, paired, uncertain)
  }

  lemma PairingUnique(p: seq<Assigned>, q: seq<Assigned>, u: seq<Uncertain>, v: seq<Uncertain>, events: seq<Event>,
                      triggers: seq<Event>, audit: Name)
    requires AssignedOf(p, events, triggers, audit) && AssignedOf(q, events, triggers, audit)
    requires UncertainOf(u, events, triggers, audit) && UncertainOf(v, events, triggers, audit)
    ensures p == q && u == v
  {
    assert forall i | 0 <= i < |p| :: p[i] == q[i];
    assert forall i | 0 <= i < |u| :: u[i] == v[i];
  }

  /** Events define one record. */
  lemma RecordUnique(a: DeviceDeployment, b: DeviceDeployment, mac: Name, site: Option<Name>, events: seq<Event>,
                     audit: Name)
    requires PairedAs(a, mac, site, events, audit) && PairedAs(b, mac, site, events, audit)
    ensures a == b
  {
    var p, u :| DeviceOf(a, mac, site, events, audit, p, u);
    var q, v :| DeviceOf(b, mac, site, events, audit, q, v);
    PairingUnique(p, q, u, v, events, TriggersOf(events), audit);
  }

  lemma DoubtsFound(uncertain: seq<Uncertain>, events: seq<Event>, audit: Name, doubt: Doubt)
    requires UncertainOf(uncertain, events, TriggersOf(events), audit)
    ensures (exists u :: u in uncertain && u.doubt == doubt) <==> Doubted(events, audit, doubt)
  {
    UncertainMembers(uncertain, events, TriggersOf(events), audit);
    if Doubted(events, audit, doubt) {
      var e :| e in events && IsOutcome(e) && Pair(e, TriggersOf(events), audit) == Unsure(doubt);
      assert Uncertain(e, doubt) in uncertain;
    }
  }

  method PairDevice(mac: Name, site: Option<Name>, events: seq<Event>, audit: Name)
    returns (d: DeviceDeployment, gaps: set<GapKind>)
    ensures PairedAs(d, mac, site, events, audit)
    ensures forall g :: g in gaps <==> GapFound(g, events, audit, d.judgement)
    ensures Ordered(d.judgement.peak, d.judgement.current)
  {
    var own := OwnTriggers(events, audit);
    var paired, uncertain, noted := AssignOutcomes(events, audit);
    AssignedMembers(paired, events, TriggersOf(events), audit);
    DoubtsFound(uncertain, events, audit, ByReceiptTime);
    DoubtsFound(uncertain, events, audit, ByOtherTrigger);
    JudgementHolds(own != [], paired, uncertain);
    gaps := noted;
    var shown := Shown(own);
    d := DeviceDeployment(
      mac, site,
      if shown.None? then None else Some(shown.value.eventType),
      if shown.Some? && shown.value.timed then Some(shown.value.second) else None,
      Outcomes(paired),
      Judge(own != [], paired, uncertain));
    assert DeviceOf(d, mac, site, events, audit, paired, uncertain);
    if own != [] {
      if exists u | u in uncertain :: u.doubt == ByReceiptTime {
        gaps := gaps + {ReceiptTimeGap};
      }
      if (exists u | u in uncertain :: u.doubt == ByOtherTrigger) || d.judgement.reason == Some(ConflictingOutcomes) {
        gaps := gaps + {AmbiguousGap};
      }
    }
  }

  // Arrival order.

  ghost predicate DistinctIds(events: seq<Event>) {
    forall a, b | a in events && b in events && a.id == b.id :: a == b
  }

  lemma EventOrder()
    ensures Total(EventLeq) && Transitive(EventLeq)
    ensures forall a, b | EventLeq(a, b) && EventLeq(b, a) :: a.second == b.second && a.id == b.id
  {
    NameOrder();
    forall a: Event, b: Event, c: Event | EventLeq(a, b) && EventLeq(b, c)
      ensures EventLeq(a, c)
    {
      if a.second == b.second == c.second {
        assert NameLeq(a.id, b.id) && NameLeq(b.id, c.id);
      }
    }
  }

  /** A device's pairing depends on which receipts arrived, not on the order they arrived in. */
  lemma ArrivalOrderIrrelevant(s: seq<Event>, t: seq<Event>)
    requires multiset(s) == multiset(t) && DistinctIds(s)
    ensures Prioritized(s, EventLeq) == Prioritized(t, EventLeq)
  {
    EventOrder();
    forall x, y | x in s && y in s && EventLeq(x, y) && EventLeq(y, x)
      ensures x == y
    {
      assert x.id == y.id;
    }
    PriorityIgnoresInputOrder(s, t, EventLeq);
  }
}
