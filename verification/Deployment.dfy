/** Deployment pairing: which outcomes belong to this audit's trigger on one device, under second-granular and
    sometimes missing provider times, and what state that leaves the device in. */
module Deployment {
  import opened Contracts
  import opened Ordering
  import opened Obligations

  datatype Family = AP | SW | GW

  datatype OutcomeKind = Configured | Failed | Reverted

  /** The device-event types pairing looks at; any other type is ignored. */
  datatype EventType = UserTrigger(family: Family) | RrmTrigger | Outcome(family: Family, kind: OutcomeKind) | Other(name: Name)

  /** One device-event receipt, its instants in milliseconds. */
  datatype Receipt = Receipt(
    id: Name,
    receivedAt: int,
    eventType: EventType,
    mac: Name,
    site: Name,
    occurredAt: Option<int>,
    auditId: Option<Name>)

  /** An instant at the provider's precision: truncated to the whole second. */
  function ProviderSecond(instant: int): int {
    instant - instant % 1000
  }

  const PAIRING_BOUND: int := 30 * 60_000

  /** The audit, its change time and the fixed evidence instant that bound every replay of one attempt. */
  datatype Frame = Frame(auditId: Name, changedAt: int, asOf: int) {
    function PairingStart(): int {
      ProviderSecond(changedAt) - PAIRING_BOUND
    }
  }

  /** A deployment receipt placed in time: only a provider time also bounds how early it occurred. */
  datatype Event = Event(id: Name, second: int, timed: bool, eventType: EventType, auditId: Option<Name>)

  function EventOf(r: Receipt): Event {
    Event(r.id, ProviderSecond(if r.occurredAt.Some? then r.occurredAt.value else r.receivedAt), r.occurredAt.Some?,
          r.eventType, r.auditId)
  }

  predicate IsOutcome(e: Event) {
    e.eventType.Outcome?
  }

  predicate IsTrigger(e: Event) {
    e.eventType.UserTrigger? || e.eventType.RrmTrigger?
  }

  predicate EventLeq(a: Event, b: Event) {
    a.second < b.second || (a.second == b.second && NameLeq(a.id, b.id))
  }

  /** Which change a trigger belongs to. */
  datatype Identity = OfAudit(audit: Name) | OfRrm | OfUnlinked

  function IdentityOf(t: Event): Identity {
    if t.auditId.Some? then OfAudit(t.auditId.value) else if t.eventType == RrmTrigger then OfRrm else OfUnlinked
  }

  /** Whether this event can be at or before the other at second precision. */
  predicate MayPrecede(e: Event, other: Event) {
    !e.timed || e.second <= other.second
  }

  /** Whether this event is certainly after `first` and before `last`. */
  predicate SurelyBetween(e: Event, first: Event, last: Event) {
    e.timed && last.timed && first.second < e.second < last.second
  }

  // Pairing one outcome.

  datatype Link = ByAudit | ByTime

  datatype Doubt = ByReceiptTime | ByOtherTrigger

  datatype Pairing = Assign(link: Link) | Unsure(doubt: Doubt) | Unpaired

  datatype GapKind = DelayGap | UnmatchedGap | ReceiptTimeGap | AmbiguousGap | OutOfBoundGap

  predicate Linked(t: Event, outcome: Event) {
    t.auditId == outcome.auditId && MayPrecede(t, outcome)
  }

  /** A trigger whose provider time proves it is not after the outcome. */
  predicate Confirms(t: Event, outcome: Event) {
    Linked(t, outcome) && t.timed && outcome.timed
  }

  /** Only a trigger of the outcome's audit on this device that is not after the outcome. */
  function ExactLink(outcome: Event, triggers: seq<Event>, audit: Name): Pairing {
    if !exists t | t in triggers :: Linked(t, outcome) then Unpaired
    else if outcome.auditId != Some(audit) then Unpaired
    else if !exists t | t in triggers :: Confirms(t, outcome) then Unsure(ByReceiptTime)
    else Assign(ByAudit)
  }

  function ExactGap(outcome: Event, triggers: seq<Event>, audit: Name): Option<GapKind> {
    if !exists t | t in triggers :: Linked(t, outcome) then Some(UnmatchedGap)
    else if ExactLink(outcome, triggers, audit) == Assign(ByAudit)
            && forall t | t in triggers && Confirms(t, outcome) :: outcome.second - t.second > PAIRING_BOUND
    then Some(DelayGap)
    else None
  }

  predicate InBound(t: Event, outcome: Event) {
    !outcome.timed || outcome.second - (if t.second < outcome.second then t.second else outcome.second) <= PAIRING_BOUND
  }

  /** The trigger may be the latest at or before the outcome, within the bound. */
  predicate MayBeLatest(t: Event, outcome: Event, triggers: seq<Event>) {
    MayPrecede(t, outcome) && InBound(t, outcome) && !exists u | u in triggers :: SurelyBetween(u, t, outcome)
  }

  function Possible(outcome: Event): Event -> bool {
    (t: Event) => MayPrecede(t, outcome) && InBound(t, outcome)
  }

  function NotSuperseded(outcome: Event, triggers: seq<Event>): Event -> bool {
    (t: Event) => !exists u | u in triggers :: SurelyBetween(u, t, outcome)
  }

  /** Every trigger that may be the latest at or before an unlinked outcome, within the bound. */
  function FallbackTriggers(outcome: Event, triggers: seq<Event>): seq<Event> {
    Filter(Filter(triggers, Possible(outcome)), NotSuperseded(outcome, triggers))
  }

  /** The latest triggers of any change at or before an unlinked outcome, within the bound. */
  function TimeFallback(outcome: Event, triggers: seq<Event>, audit: Name): Pairing {
    var found := FallbackTriggers(outcome, triggers);
    var identities := set t | t in found :: IdentityOf(t);
    if OfAudit(audit) !in identities then Unpaired
    else if !outcome.timed || exists t | t in found :: !t.timed then Unsure(ByReceiptTime)
    else if identities != {OfAudit(audit)} then Unsure(ByOtherTrigger)
    else Assign(ByTime)
  }

  function FallbackGap(outcome: Event, triggers: seq<Event>, audit: Name): Option<GapKind> {
    if FallbackTriggers(outcome, triggers) == []
       && exists t | t in triggers :: t.auditId == Some(audit) && MayPrecede(t, outcome)
    then Some(OutOfBoundGap) else None
  }

  function Pair(outcome: Event, triggers: seq<Event>, audit: Name): Pairing {
    if outcome.auditId.Some? then ExactLink(outcome, triggers, audit) else TimeFallback(outcome, triggers, audit)
  }

  function PairGap(outcome: Event, triggers: seq<Event>, audit: Name): Option<GapKind> {
    if outcome.auditId.Some? then ExactGap(outcome, triggers, audit) else FallbackGap(outcome, triggers, audit)
  }

  // Assigning every outcome.

  datatype Assigned = Assigned(event: Event, link: Link)

  datatype Uncertain = Uncertain(event: Event, doubt: Doubt)

  function TriggersOf(events: seq<Event>): seq<Event> {
    Filter(events, (e: Event) => !IsOutcome(e))
  }

  /** Some of these outcomes leaves this gap. */
  ghost predicate LeavesGap(g: GapKind, events: seq<Event>, triggers: seq<Event>, audit: Name) {
    exists e :: e in events && IsOutcome(e) && PairGap(e, triggers, audit) == Some(g)
  }

  ghost predicate GapsOf(gaps: set<GapKind>, events: seq<Event>, triggers: seq<Event>, audit: Name) {
    forall g :: g in gaps <==> LeavesGap(g, events, triggers, audit)
  }

  lemma GapsStep(gaps: set<GapKind>, events: seq<Event>, e: Event, triggers: seq<Event>, audit: Name)
    requires GapsOf(gaps, events, triggers, audit)
    ensures var gap := PairGap(e, triggers, audit);
            GapsOf(if IsOutcome(e) && gap.Some? then gaps + {gap.value} else gaps, events + [e], triggers, audit)
  {
    forall g
      ensures LeavesGap(g, events + [e], triggers, audit)
         <==> LeavesGap(g, events, triggers, audit) || (IsOutcome(e) && PairGap(e, triggers, audit) == Some(g))
    {
      assert forall x :: x in events + [e] <==> x in events || x == e;
    }
  }

  /** This audit's paired outcomes, and those that may be this audit's but cannot be paired to it. */
  method AssignOutcomes(events: seq<Event>, audit: Name)
    returns (paired: seq<Assigned>, uncertain: seq<Uncertain>, gaps: set<GapKind>)
    ensures AssignedOf(paired, events, TriggersOf(events), audit)
    ensures UncertainOf(uncertain, events, TriggersOf(events), audit)
    ensures GapsOf(gaps, events, TriggersOf(events), audit)
  {
    var triggers := TriggersOf(events);
    paired, uncertain, gaps := [], [], {};
    for i := 0 to |events|
      invariant AssignedOf(paired, events[..i], triggers, audit)
      invariant UncertainOf(uncertain, events[..i], triggers, audit)
      invariant GapsOf(gaps, events[..i], triggers, audit)
    {
      Taking(events, i);
      paired, uncertain, gaps := AssignOne(paired, uncertain, gaps, events[..i], events[i], triggers, audit);
    }
    Taken(events);
  }

  /** One more event: an outcome is assigned, uncertain or neither, and may leave a gap. */
  method AssignOne(before: seq<Assigned>, doubted: seq<Uncertain>, known: set<GapKind>, ghost events: seq<Event>,
                   outcome: Event, triggers: seq<Event>, audit: Name)
    returns (paired: seq<Assigned>, uncertain: seq<Uncertain>, gaps: set<GapKind>)
    requires AssignedOf(before, events, triggers, audit) && UncertainOf(doubted, events, triggers, audit)
    requires GapsOf(known, events, triggers, audit)
    ensures AssignedOf(paired, events + [outcome], triggers, audit)
    ensures UncertainOf(uncertain, events + [outcome], triggers, audit)
    ensures GapsOf(gaps, events + [outcome], triggers, audit)
  {
    paired, uncertain, gaps := before, doubted, known;
    AssignStep(before, doubted, events, outcome, triggers, audit);
    GapsStep(known, events, outcome, triggers, audit);
    if IsOutcome(outcome) {
      var result := Pair(outcome, triggers, audit);
      match result {
        case Assign(link) => paired := before + [Assigned(outcome, link)];
        case Unsure(doubt) => uncertain := doubted + [Uncertain(outcome, doubt)];
        case Unpaired =>
      }
      var gap := PairGap(outcome, triggers, audit);
      if gap.Some? {
        gaps := known + {gap.value};
      }
    }
  }

  predicate IsAssigned(e: Event, triggers: seq<Event>, audit: Name) {
    IsOutcome(e) && Pair(e, triggers, audit).Assign?
  }

  predicate IsUncertain(e: Event, triggers: seq<Event>, audit: Name) {
    IsOutcome(e) && Pair(e, triggers, audit).Unsure?
  }

  function Assigns(triggers: seq<Event>, audit: Name): Event -> bool {
    (e: Event) => IsAssigned(e, triggers, audit)
  }

  function Doubts(triggers: seq<Event>, audit: Name): Event -> bool {
    (e: Event) => IsUncertain(e, triggers, audit)
  }

  /** The paired outcomes, in the order of the events. */
  ghost predicate AssignedOf(paired: seq<Assigned>, events: seq<Event>, triggers: seq<Event>, audit: Name) {
    var chosen := Filter(events, Assigns(triggers, audit));
    |paired| == |chosen|
    && forall i | 0 <= i < |chosen| ::
         paired[i].event == chosen[i] && Pair(chosen[i], triggers, audit) == Assign(paired[i].link)
  }

  ghost predicate UncertainOf(uncertain: seq<Uncertain>, events: seq<Event>, triggers: seq<Event>, audit: Name) {
    var chosen := Filter(events, Doubts(triggers, audit));
    |uncertain| == |chosen|
    && forall i | 0 <= i < |chosen| ::
         uncertain[i].event == chosen[i] && Pair(chosen[i], triggers, audit) == Unsure(uncertain[i].doubt)
  }

  lemma AssignStep(paired: seq<Assigned>, uncertain: seq<Uncertain>, events: seq<Event>, e: Event,
                   triggers: seq<Event>, audit: Name)
    requires AssignedOf(paired, events, triggers, audit) && UncertainOf(uncertain, events, triggers, audit)
    ensures var a := if IsAssigned(e, triggers, audit)
                     then paired + [Assigned(e, Pair(e, triggers, audit).link)] else paired;
            AssignedOf(a, events + [e], triggers, audit)
    ensures var u := if IsUncertain(e, triggers, audit)
                     then uncertain + [Uncertain(e, Pair(e, triggers, audit).doubt)] else uncertain;
            UncertainOf(u, events + [e], triggers, audit)
  {
    FilterSnoc(events, e, Assigns(triggers, audit));
    FilterSnoc(events, e, Doubts(triggers, audit));
  }

  lemma AssignedMembers(paired: seq<Assigned>, events: seq<Event>, triggers: seq<Event>, audit: Name)
    requires AssignedOf(paired, events, triggers, audit)
    ensures forall a :: a in paired
              <==> a.event in events && IsOutcome(a.event) && Pair(a.event, triggers, audit) == Assign(a.link)
  {
    var chosen := Filter(events, Assigns(triggers, audit));
    FilterMembers(events, Assigns(triggers, audit));
    forall a: Assigned | a.event in events && IsOutcome(a.event) && Pair(a.event, triggers, audit) == Assign(a.link)
      ensures a in paired
    {
      assert a.event in chosen;
      var i :| 0 <= i < |chosen| && chosen[i] == a.event;
      assert paired[i] == a;
    }
    forall a | a in paired
      ensures a.event in events && IsOutcome(a.event) && Pair(a.event, triggers, audit) == Assign(a.link)
    {
      var i :| 0 <= i < |paired| && paired[i] == a;
      assert chosen[i] in chosen;
    }
  }

  lemma UncertainMembers(uncertain: seq<Uncertain>, events: seq<Event>, triggers: seq<Event>, audit: Name)
    requires UncertainOf(uncertain, events, triggers, audit)
    ensures forall u :: u in uncertain
              <==> u.event in events && IsOutcome(u.event) && Pair(u.event, triggers, audit) == Unsure(u.doubt)
  {
    var chosen := Filter(events, Doubts(triggers, audit));
    FilterMembers(events, Doubts(triggers, audit));
    forall u: Uncertain | u.event in events && IsOutcome(u.event) && Pair(u.event, triggers, audit) == Unsure(u.doubt)
      ensures u in uncertain
    {
      assert u.event in chosen;
      var i :| 0 <= i < |chosen| && chosen[i] == u.event;
      assert uncertain[i] == u;
    }
    forall u | u in uncertain
      ensures u.event in events && IsOutcome(u.event) && Pair(u.event, triggers, audit) == Unsure(u.doubt)
    {
      var i :| 0 <= i < |uncertain| && uncertain[i] == u;
      assert chosen[i] in chosen;
    }
  }

  // The state machine.

  datatype State = Unknown | IsConfigured | IsFailed | IsReverted | IsAmbiguous

  datatype Correlation = NotCorrelated | CorrelatedByAudit | CorrelatedByTime | AmbiguousCorrelation

  /** What the paired outcomes make of the device. */
  datatype Judgement = Judgement(
    correlation: Correlation,
    state: State,
    recovered: bool,
    peak: Band,
    current: Band,
    satisfied: bool,
    reason: Option<Reason>)

  function KindOf(a: Assigned): OutcomeKind
    requires IsOutcome(a.event)
  {
    a.event.eventType.kind
  }

  predicate Troubled(kind: OutcomeKind) {
    kind != Configured
  }

  predicate AllOutcomes(paired: seq<Assigned>) {
    forall a | a in paired :: IsOutcome(a.event)
  }

  predicate AnyTrouble(paired: seq<Assigned>)
    requires AllOutcomes(paired)
  {
    exists a | a in paired :: Troubled(KindOf(a))
  }

  /** The latest second of the paired outcomes. */
  function LastSecond(paired: seq<Assigned>): Option<int> {
    if paired == [] then None
    else
      var rest := LastSecond(paired[1..]);
      if rest.Some? && rest.value > paired[0].event.second then rest else Some(paired[0].event.second)
  }

  lemma {:induction false} LastSecondIsLatest(paired: seq<Assigned>)
    ensures LastSecond(paired).None? <==> paired == []
    ensures forall a | a in paired :: LastSecond(paired).Some? && a.event.second <= LastSecond(paired).value
    ensures LastSecond(paired).Some? ==> exists a :: a in paired && a.event.second == LastSecond(paired).value
  {
    if paired != [] {
      LastSecondIsLatest(paired[1..]);
      assert paired[0] in paired;
      assert forall a :: a in paired <==> a == paired[0] || a in paired[1..];
    }
  }

  /** An uncertain outcome unsettles the state only if it may be the latest. */
  predicate Unsettles(u: Uncertain, last: Option<int>) {
    last.None? || u.event.second >= last.value
  }

  function FinalKinds(paired: seq<Assigned>, last: int): set<OutcomeKind>
    requires AllOutcomes(paired)
  {
    set a | a in paired && a.event.second == last :: KindOf(a)
  }

  function CorrelationOf(paired: seq<Assigned>): Correlation {
    if exists a | a in paired :: a.link == ByAudit then CorrelatedByAudit else CorrelatedByTime
  }

  function LatestReason(kind: OutcomeKind): Reason
    requires Troubled(kind)
  {
    if kind == Failed then LatestFailed else LatestReverted
  }

  /** Once the latest paired outcome is known, it decides, and failed or reverted anywhere warns. */
  function Settle(paired: seq<Assigned>, last: OutcomeKind): Judgement
    requires AllOutcomes(paired)
  {
    if last == Configured then
      Judgement(CorrelationOf(paired), IsConfigured, AnyTrouble(paired),
                if AnyTrouble(paired) then Warning else NoImpact, NoImpact, true, None)
    else
      Judgement(CorrelationOf(paired), if last == Failed then IsFailed else IsReverted, false, Warning, Warning, false,
                Some(LatestReason(last)))
  }

  const NOTHING_PAIRED: Judgement := Judgement(NotCorrelated, Unknown, false, NoImpact, NoImpact, false, Some(NoOutcome))

  function Judge(hasTrigger: bool, paired: seq<Assigned>, uncertain: seq<Uncertain>): Judgement
    requires AllOutcomes(paired)
  {
    var last := LastSecond(paired);
    var peak := if AnyTrouble(paired) then Warning else NoImpact;
    if !hasTrigger then NOTHING_PAIRED.(reason := Some(NoTrigger))
    else if exists u | u in uncertain :: Unsettles(u, last) then
      NOTHING_PAIRED.(
        correlation := AmbiguousCorrelation, state := IsAmbiguous, peak := peak,
        reason := Some(if exists u | u in uncertain :: Unsettles(u, last) && u.doubt == ByReceiptTime
                       then ReceiptTimeOnly else AmbiguousTriggers))
    else if last.None? then NOTHING_PAIRED
    else
      var final := FinalKinds(paired, last.value);
      if final != {Configured} && final != {Failed} && final != {Reverted} then
        Judgement(CorrelationOf(paired), IsAmbiguous, false, peak,
                  if Configured in final then NoImpact else Warning, false, Some(ConflictingOutcomes))
      else Settle(paired, if Configured in final then Configured else if Failed in final then Failed else Reverted)
  }

  /** Whatever was paired, current never exceeds peak, and only a satisfied precondition carries no reason. */
  lemma JudgementHolds(hasTrigger: bool, paired: seq<Assigned>, uncertain: seq<Uncertain>)
    requires AllOutcomes(paired)
    ensures var j := Judge(hasTrigger, paired, uncertain);
            && Ordered(j.peak, j.current) && (j.satisfied <==> j.reason.None?)
            && (j.satisfied <==> j.state == IsConfigured) && (j.recovered ==> j.satisfied && j.peak == Warning)
  {
    LastSecondIsLatest(paired);
    var last := LastSecond(paired);
    if last.Some? {
      var a :| a in paired && a.event.second == last.value;
      assert KindOf(a) in FinalKinds(paired, last.value);
      if Configured !in FinalKinds(paired, last.value) {
        assert Troubled(KindOf(a));
      }
    }
  }
}
