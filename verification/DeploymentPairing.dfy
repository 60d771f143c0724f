/** What pairing may never drop: the rule for each outcome, stated by what the recorded times leave possible. */
module DeploymentPairing {
  import opened Contracts
  import opened Ordering
  import opened Obligations
  import opened Deployment
  import opened DeploymentTheorems
  import opened DeploymentReplay

  // What recorded times leave possible.

  /** The event can have happened at this instant: within the second its provider time is cut to, or, when there is only
      a receipt, at any time up to the receipt's second. */
  predicate MayHappenAt(e: Event, instant: int) {
    instant < e.second + 1000 && (e.timed ==> e.second <= instant)
  }

  /** Seconds are whole seconds. */
  predicate Whole(e: Event) {
    e.second % 1000 == 0
  }

  /** The records allow the first event at `x` and the second one at `y`, not before it. */
  predicate BeforeAt(t: Event, o: Event, x: int, y: int) {
    MayHappenAt(t, x) && MayHappenAt(o, y) && x <= y
  }

  /** Some instants the records allow put the first event at or before the second one. */
  ghost predicate PossiblyBefore(t: Event, o: Event) {
    exists x, y :: BeforeAt(t, o, x, y)
  }

  /** And within thirty minutes, as whole seconds count them. */
  ghost predicate PossiblyWithin(t: Event, o: Event) {
    exists x, y :: BeforeAt(t, o, x, y) && ProviderSecond(y) - ProviderSecond(x) <= 30 * 60_000
  }

  predicate BetweenAt(u: Event, first: Event, last: Event, x: int, y: int, z: int) {
    MayHappenAt(first, x) && MayHappenAt(u, y) && MayHappenAt(last, z) ==> x < y < z
  }

  /** Whatever instants the records allow, the event is after the first and before the last. */
  ghost predicate CertainlyBetween(u: Event, first: Event, last: Event) {
    forall x, y, z {:trigger BetweenAt(u, first, last, x, y, z)} :: BetweenAt(u, first, last, x, y, z)
  }

  /** The comparison of seconds is exactly what the records leave possible. */
  lemma MayPrecedeMeans(t: Event, o: Event)
    requires Whole(t) && Whole(o)
    ensures MayPrecede(t, o) <==> PossiblyBefore(t, o)
  {
    if MayPrecede(t, o) {
      assert BeforeAt(t, o, if t.second < o.second then t.second else o.second, o.second);
    }
    if x, y :| BeforeAt(t, o, x, y) {
      assert t.timed ==> t.second < o.second + 1000;
    }
  }

  lemma InBoundMeans(t: Event, o: Event)
    requires Whole(t) && Whole(o)
    ensures MayPrecede(t, o) && InBound(t, o) <==> PossiblyWithin(t, o)
  {
    if MayPrecede(t, o) && InBound(t, o) {
      var x := if t.second < o.second then t.second else o.second;
      var y := if o.timed then o.second else x;
      assert BeforeAt(t, o, x, y);
      assert ProviderSecond(x) == x && ProviderSecond(y) == y;
    }
    if x, y :| BeforeAt(t, o, x, y) && ProviderSecond(y) - ProviderSecond(x) <= 30 * 60_000 {
      MayPrecedeMeans(t, o);
      assert ProviderSecond(x) <= t.second;
      assert o.timed ==> ProviderSecond(y) == o.second;
      assert ProviderSecond(x) <= ProviderSecond(y);
    }
  }

  /** Different seconds are a whole second apart. */
  lemma SecondsApart(a: Event, b: Event)
    requires Whole(a) && Whole(b) && a.second < b.second
    ensures a.second + 1000 <= b.second
  {
  }

  lemma SurelyBetweenMeans(u: Event, first: Event, last: Event)
    requires Whole(u) && Whole(first) && Whole(last)
    ensures SurelyBetween(u, first, last) <==> CertainlyBetween(u, first, last)
  {
    if SurelyBetween(u, first, last) {
      SecondsApart(first, u);
      SecondsApart(u, last);
    } else {
      SomewhereElse(u, first, last);
    }
  }

  /** Otherwise some instants the records allow put the event elsewhere. */
  lemma SomewhereElse(u: Event, first: Event, last: Event)
    requires !SurelyBetween(u, first, last)
    ensures !CertainlyBetween(u, first, last)
  {
    var x, z := first.second + 999, last.second;
    var y := if !u.timed && x < u.second then x else u.second;
    if u.timed && last.timed && first.second < u.second {
      assert !BetweenAt(u, first, last, x, u.second + 999, z);
    } else if u.timed && !last.timed {
      assert !BetweenAt(u, first, last, x, u.second, if u.second < z then u.second else z);
    } else {
      assert !BetweenAt(u, first, last, x, y, z);
    }
  }

  // The rule for one outcome, without the pairing functions.

  /** A trigger of this audit on the device. */
  predicate Ours(t: Event, events: seq<Event>, audit: Name) {
    t in events && !IsOutcome(t) && t.auditId == Some(audit)
  }

  /** The trigger may be the latest of any change at or before the outcome: possibly before it within the bound, and no
      other trigger is certainly between them. */
  ghost predicate LatestCandidate(t: Event, o: Event, events: seq<Event>) {
    && t in events && !IsOutcome(t) && PossiblyWithin(t, o)
    && forall u | u in events && !IsOutcome(u) :: !CertainlyBetween(u, t, o)
  }

  /** The outcome may be this audit's: it carries the audit and a trigger of it is possibly before, or it carries none
      and a trigger of the audit may be the latest before it. */
  ghost predicate MayBeOurs(o: Event, events: seq<Event>, audit: Name) {
    || (o.auditId == Some(audit) && exists t :: Ours(t, events, audit) && PossiblyBefore(t, o))
    || (o.auditId.None? && exists t :: Ours(t, events, audit) && LatestCandidate(t, o, events))
  }

  /** And it must be: its time is the provider's, and so is that of what decides; for an outcome that carries no audit,
      every candidate is of this audit. */
  ghost predicate MustBeOurs(o: Event, events: seq<Event>, audit: Name) {
    && o.timed
    && (if o.auditId.Some? then exists t :: Ours(t, events, audit) && t.timed && t.second <= o.second
        else forall t | LatestCandidate(t, o, events) :: t.timed && t.auditId == Some(audit))
  }

  /** Only the order among triggers is unknown: every time that decides is the provider's. */
  ghost predicate TimesKnown(o: Event, events: seq<Event>) {
    o.timed && o.auditId.None? && forall t | LatestCandidate(t, o, events) :: t.timed
  }

  ghost predicate AllWhole(events: seq<Event>) {
    forall e | e in events :: Whole(e)
  }

  lemma CandidatesMean(o: Event, events: seq<Event>)
    requires AllWhole(events) && o in events
    ensures forall t :: t in FallbackTriggers(o, TriggersOf(events)) <==> LatestCandidate(t, o, events)
  {
    var triggers := TriggersOf(events);
    FilterMembers(events, (e: Event) => !IsOutcome(e));
    FallbackMembers(o, triggers);
    forall t | t in triggers
      ensures MayBeLatest(t, o, triggers) <==> LatestCandidate(t, o, events)
    {
      InBoundMeans(t, o);
      forall u | u in triggers {
        SurelyBetweenMeans(u, t, o);
      }
    }
  }

  lemma LinkedMeans(o: Event, events: seq<Event>, audit: Name)
    requires AllWhole(events) && o in events && o.auditId == Some(audit)
    ensures (exists t | t in TriggersOf(events) :: Linked(t, o))
       <==> exists t :: Ours(t, events, audit) && PossiblyBefore(t, o)
    ensures (exists t | t in TriggersOf(events) :: Confirms(t, o))
       <==> o.timed && exists t :: Ours(t, events, audit) && t.timed && t.second <= o.second
  {
    FilterMembers(events, (e: Event) => !IsOutcome(e));
    var triggers := TriggersOf(events);
    forall t
      ensures t in triggers && Linked(t, o) <==> Ours(t, events, audit) && PossiblyBefore(t, o)
      ensures t in triggers && Confirms(t, o) <==> Ours(t, events, audit) && t.timed && o.timed && t.second <= o.second
    {
      if t in events {
        MayPrecedeMeans(t, o);
      }
    }
  }

  /** Every outcome of the device is placed by what its recorded times leave possible: left alone exactly when it cannot
      be this audit's, assigned exactly when it may be and must be, and otherwise uncertain, by the receipt's time unless
      only the order among triggers is unknown. */
  lemma PairedExactly(o: Event, events: seq<Event>, audit: Name)
    requires AllWhole(events) && o in events
    ensures var pairing := Pair(o, TriggersOf(events), audit);
            && (pairing.Unpaired? <==> !MayBeOurs(o, events, audit))
            && (pairing.Assign? <==> MayBeOurs(o, events, audit) && MustBeOurs(o, events, audit))
            && (pairing == Unsure(ByOtherTrigger)
                <==> MayBeOurs(o, events, audit) && !MustBeOurs(o, events, audit) && TimesKnown(o, events))
            && (pairing.Assign? ==> pairing.link == if o.auditId.Some? then ByAudit else ByTime)
  {
    if o.auditId.None? {
      UnlinkedExactly(o, events, audit);
    } else {
      LinkedExactly(o, events, audit);
    }
  }

  lemma LinkedExactly(o: Event, events: seq<Event>, audit: Name)
    requires AllWhole(events) && o in events && o.auditId.Some?
    ensures var pairing := ExactLink(o, TriggersOf(events), audit);
            && (pairing.Unpaired? <==> !MayBeOurs(o, events, audit))
            && (pairing.Assign? <==> MayBeOurs(o, events, audit) && MustBeOurs(o, events, audit))
            && pairing != Unsure(ByOtherTrigger) && (pairing.Assign? ==> pairing.link == ByAudit)
  {
    if o.auditId == Some(audit) {
      LinkedMeans(o, events, audit);
    }
  }

  /** An outcome without an audit: left alone if it may not be ours, assigned if it may and must be, and otherwise
      uncertain. */
  predicate RightPairing(pairing: Pairing, may: bool, must: bool, known: bool) {
    if !may then pairing == Unpaired
    else if must then pairing == Assign(ByTime)
    else pairing == Unsure(if known then ByOtherTrigger else ByReceiptTime)
  }

  lemma UnlinkedExactly(o: Event, events: seq<Event>, audit: Name)
    requires AllWhole(events) && o in events && o.auditId.None?
    ensures RightPairing(TimeFallback(o, TriggersOf(events), audit), MayBeOurs(o, events, audit),
                         MustBeOurs(o, events, audit), TimesKnown(o, events))
  {
    OursMeans(o, events, audit);
    KnownMeans(o, events, audit);
    FallbackPlaces(o, TriggersOf(events), audit, MayBeOurs(o, events, audit), MustBeOurs(o, events, audit),
                   TimesKnown(o, events));
  }

  lemma Placed(o: Event, events: seq<Event>, audit: Name, found: seq<Event>)
    requires o.auditId.None?
    requires (exists t :: t in found && t.auditId == Some(audit))
        <==> exists t :: Ours(t, events, audit) && LatestCandidate(t, o, events)
    ensures MayBeOurs(o, events, audit) <==> exists t :: t in found && t.auditId == Some(audit)
  {
  }

  lemma OursMeans(o: Event, events: seq<Event>, audit: Name)
    requires AllWhole(events) && o in events && o.auditId.None?
    ensures MayBeOurs(o, events, audit)
       <==> exists t :: t in FallbackTriggers(o, TriggersOf(events)) && t.auditId == Some(audit)
  {
    CandidatesMean(o, events);
    forall t | LatestCandidate(t, o, events) && t.auditId == Some(audit)
      ensures Ours(t, events, audit)
    {
    }
  }

  lemma KnownMeans(o: Event, events: seq<Event>, audit: Name)
    requires AllWhole(events) && o in events && o.auditId.None?
    ensures TimesKnown(o, events) <==> o.timed && forall t | t in FallbackTriggers(o, TriggersOf(events)) :: t.timed
    ensures MustBeOurs(o, events, audit)
       <==> o.timed && (forall t | t in FallbackTriggers(o, TriggersOf(events)) :: t.timed)
            && forall t | t in FallbackTriggers(o, TriggersOf(events)) :: t.auditId == Some(audit)
  {
    CandidatesMean(o, events);
  }

  /** The fallback over its candidates: none of this audit, all of it with known times, or not known. */
  lemma FallbackPlaces(o: Event, triggers: seq<Event>, audit: Name, may: bool, must: bool, known: bool)
    requires may <==> exists t :: t in FallbackTriggers(o, triggers) && t.auditId == Some(audit)
    requires known <==> o.timed && forall t | t in FallbackTriggers(o, triggers) :: t.timed
    requires must <==> o.timed && (forall t | t in FallbackTriggers(o, triggers) :: t.timed)
                       && forall t | t in FallbackTriggers(o, triggers) :: t.auditId == Some(audit)
    ensures RightPairing(TimeFallback(o, triggers, audit), may, must, known)
  {
    Identified(FallbackTriggers(o, triggers), audit);
  }

  lemma Identified(found: seq<Event>, audit: Name)
    ensures var identities := set t | t in found :: IdentityOf(t);
            && (OfAudit(audit) in identities <==> exists t :: t in found && t.auditId == Some(audit))
            && (OfAudit(audit) in identities ==>
                  (identities == {OfAudit(audit)} <==> forall t | t in found :: t.auditId == Some(audit)))
  {
    var identities := set t | t in found :: IdentityOf(t);
    forall t | t in found
      ensures IdentityOf(t) in identities && (IdentityOf(t) == OfAudit(audit) <==> t.auditId == Some(audit))
    {
    }
    if OfAudit(audit) in identities && forall t | t in found :: t.auditId == Some(audit) {
      assert forall i | i in identities :: i == OfAudit(audit);
    }
  }

  // Nothing that may be ours is lost.

  /** An outcome that may be this audit's is among the assigned or the uncertain ones, and no other is. */
  lemma NoneDropped(o: Event, events: seq<Event>, audit: Name, paired: seq<Assigned>, uncertain: seq<Uncertain>)
    requires AllWhole(events) && o in events && IsOutcome(o)
    requires AssignedOf(paired, events, TriggersOf(events), audit)
    requires UncertainOf(uncertain, events, TriggersOf(events), audit)
    ensures (exists a :: a in paired && a.event == o) <==> MayBeOurs(o, events, audit) && MustBeOurs(o, events, audit)
    ensures (exists u :: u in uncertain && u.event == o) <==> MayBeOurs(o, events, audit) && !MustBeOurs(o, events, audit)
  {
    PairedExactly(o, events, audit);
    AssignedMembers(paired, events, TriggersOf(events), audit);
    UncertainMembers(uncertain, events, TriggersOf(events), audit);
    var pairing := Pair(o, TriggersOf(events), audit);
    if pairing.Assign? {
      assert Assigned(o, pairing.link) in paired;
    }
    if pairing.Unsure? {
      assert Uncertain(o, pairing.doubt) in uncertain;
    }
  }

  /** The outcome must be this audit's and is a configured one of this second. */
  ghost predicate ConfiguredIn(o: Event, events: seq<Event>, audit: Name, second: int) {
    IsOutcome(o) && MustBeOurs(o, events, audit) && o.eventType.kind == Configured && o.second == second
  }

  /** A satisfied device leaves nothing open: there is a second in which a configured outcome of this audit came, and
      every outcome that may be this audit's either is of an earlier second or is itself such an outcome. */
  lemma SatisfiedLeavesNothingOpen(d: DeviceDeployment, mac: Name, site: Option<Name>, events: seq<Event>, audit: Name)
    returns (second: int)
    requires AllWhole(events) && PairedAs(d, mac, site, events, audit) && d.judgement.satisfied
    ensures exists o :: o in events && MayBeOurs(o, events, audit) && ConfiguredIn(o, events, audit, second)
    ensures forall o | o in events && IsOutcome(o) && MayBeOurs(o, events, audit) ::
              o.second < second || ConfiguredIn(o, events, audit, second)
  {
    var paired, uncertain :| DeviceOf(d, mac, site, events, audit, paired, uncertain);
    var t, a := SatisfiedIsSound(events, audit, OwnTriggers(events, audit) != [], paired, uncertain);
    second := a.event.second;
    NoneDropped(a.event, events, audit, paired, uncertain);
    forall o | o in events && IsOutcome(o) && MayBeOurs(o, events, audit)
      ensures o.second < second || ConfiguredIn(o, events, audit, second)
    {
      NoneDropped(o, events, audit, paired, uncertain);
      if b: Assigned :| b in paired && b.event == o {
        assert b.event.second == a.event.second ==> KindOf(b) == KindOf(a);
      }
    }
  }

  // Every gap has its cause.

  /** The trigger of the outcome's own audit, whichever that is, is possibly before it. */
  ghost predicate OwnBefore(t: Event, o: Event, events: seq<Event>) {
    t in events && !IsOutcome(t) && t.auditId == o.auditId && PossiblyBefore(t, o)
  }

  /** A provider-timed trigger of the audit at or before the provider-timed outcome. */
  predicate SurelyOurs(t: Event, o: Event, events: seq<Event>, audit: Name) {
    Ours(t, events, audit) && t.timed && o.timed && t.second <= o.second
  }

  /** The gap an outcome leaves, by cause: it carries an audit with no trigger possibly before it; it is assigned by its
      audit although every trigger sure to be before is over thirty minutes earlier; or it carries none, nothing is a
      candidate, and a trigger of this audit is possibly before. */
  lemma GapsExactly(o: Event, events: seq<Event>, audit: Name)
    requires AllWhole(events) && o in events
    ensures var gap := PairGap(o, TriggersOf(events), audit);
            && (gap == Some(UnmatchedGap) <==> o.auditId.Some? && !exists t :: OwnBefore(t, o, events))
            && (gap == Some(DelayGap)
                <==> o.auditId == Some(audit) && (exists t :: SurelyOurs(t, o, events, audit))
                     && forall t | SurelyOurs(t, o, events, audit) :: o.second - t.second > 30 * 60_000)
            && (gap == Some(OutOfBoundGap)
                <==> o.auditId.None? && (exists t :: Ours(t, events, audit) && PossiblyBefore(t, o))
                     && !exists t :: LatestCandidate(t, o, events))
            && gap !in {Some(ReceiptTimeGap), Some(AmbiguousGap)}
  {
    if o.auditId.Some? {
      ExactGapMeans(o, events, audit);
    } else {
      FallbackGapMeans(o, events, audit);
    }
  }

  lemma ExactGapMeans(o: Event, events: seq<Event>, audit: Name)
    requires AllWhole(events) && o in events && o.auditId.Some?
    ensures var gap := ExactGap(o, TriggersOf(events), audit);
            && (gap == Some(UnmatchedGap) <==> !exists t :: OwnBefore(t, o, events))
            && (gap == Some(DelayGap)
                <==> o.auditId == Some(audit) && (exists t :: SurelyOurs(t, o, events, audit))
                     && forall t | SurelyOurs(t, o, events, audit) :: o.second - t.second > 30 * 60_000)
            && (gap.None? || gap == Some(UnmatchedGap) || gap == Some(DelayGap))
  {
    FilterMembers(events, (e: Event) => !IsOutcome(e));
    var triggers := TriggersOf(events);
    forall t
      ensures t in triggers && Linked(t, o) <==> OwnBefore(t, o, events)
      ensures o.auditId == Some(audit) ==> (t in triggers && Confirms(t, o) <==> SurelyOurs(t, o, events, audit))
    {
      if t in events {
        MayPrecedeMeans(t, o);
      }
    }
    forall t | SurelyOurs(t, o, events, audit) && o.auditId == Some(audit)
      ensures OwnBefore(t, o, events)
    {
      assert t in triggers && Confirms(t, o);
    }
  }

  lemma FallbackGapMeans(o: Event, events: seq<Event>, audit: Name)
    requires AllWhole(events) && o in events && o.auditId.None?
    ensures var gap := FallbackGap(o, TriggersOf(events), audit);
            && (gap == Some(OutOfBoundGap)
                <==> (exists t :: Ours(t, events, audit) && PossiblyBefore(t, o))
                     && !exists t :: LatestCandidate(t, o, events))
            && (gap.None? || gap == Some(OutOfBoundGap))
  {
    NoCandidate(o, events);
    FilterMembers(events, (e: Event) => !IsOutcome(e));
    forall t
      ensures t in TriggersOf(events) && t.auditId == Some(audit) && MayPrecede(t, o)
         <==> Ours(t, events, audit) && PossiblyBefore(t, o)
    {
      if t in events {
        MayPrecedeMeans(t, o);
      }
    }
  }

  lemma NoCandidate(o: Event, events: seq<Event>)
    requires AllWhole(events) && o in events
    ensures FallbackTriggers(o, TriggersOf(events)) == [] <==> !exists t :: LatestCandidate(t, o, events)
  {
    CandidatesMean(o, events);
    var found := FallbackTriggers(o, TriggersOf(events));
    if found != [] {
      assert found[0] in found;
    }
  }

  // Over the receipts.

  lemma {:induction false} ReceiptsAreWhole(receipts: seq<Receipt>)
    ensures AllWhole(EventsOf(receipts))
  {
    if receipts != [] {
      ReceiptsAreWhole(receipts[..|receipts| - 1]);
    }
  }

  lemma DeviceEventsWhole(receipts: seq<Receipt>, mac: Name, frame: Frame)
    ensures AllWhole(DeviceEvents(receipts, mac, frame))
  {
    var events := EventsOf(Filter(receipts, RelevantTo(mac, frame)));
    ReceiptsAreWhole(Filter(receipts, RelevantTo(mac, frame)));
    SortedMembers(events, EventLeq);
  }

  /** A device the replay found satisfied leaves no receipt of it open. */
  lemma SatisfiedReceiptsAreSettled(d: DeviceDeployment, receipts: seq<Receipt>, frame: Frame, mac: Name,
                                    site: Option<Name>)
    returns (second: int)
    requires PairedFor(d, receipts, frame, mac, site) && d.judgement.satisfied
    ensures var events := DeviceEvents(receipts, mac, frame);
            && (exists o :: o in events && MayBeOurs(o, events, frame.auditId)
                            && ConfiguredIn(o, events, frame.auditId, second))
            && forall o | o in events && IsOutcome(o) && MayBeOurs(o, events, frame.auditId) ::
                 o.second < second || ConfiguredIn(o, events, frame.auditId, second)
  {
    DeviceEventsWhole(receipts, mac, frame);
    second := SatisfiedLeavesNothingOpen(d, mac, site, DeviceEvents(receipts, mac, frame), frame.auditId);
  }
}
