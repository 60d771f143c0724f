/** A receipt delivered twice, over the whole replay: what it leaves alone and what it can change. */
module DeploymentRedelivery {
  import opened Contracts
  import opened Ordering
  import opened Obligations
  import opened Targeting
  import opened Ledger
  import opened Deployment
  import opened DeploymentTheorems
  import opened DeploymentReplay
  import opened DeploymentDuplicates

  /** `dup` is `r`, which carries the provider's time, delivered again no earlier under a receipt id of its own. */
  ghost predicate ReceivedAgain(receipts: seq<Receipt>, r: Receipt, dup: Receipt) {
    && r in receipts && DistinctReceipts(receipts) && (forall x | x in receipts :: x.id != dup.id)
    && r.occurredAt.Some? && dup == r.(id := dup.id, receivedAt := dup.receivedAt) && r.receivedAt <= dup.receivedAt
  }

  function Arrived(receipts: seq<Receipt>, mac: Name, frame: Frame): seq<Event> {
    EventsOf(Filter(receipts, RelevantTo(mac, frame)))
  }

  /** A device's events with the repeat: one more, the same under another id, or none more. */
  lemma ArrivedAgain(receipts: seq<Receipt>, r: Receipt, dup: Receipt, mac: Name, frame: Frame)
    requires ReceivedAgain(receipts, r, dup)
    ensures Arrived(receipts + [dup], mac, frame)
         == Arrived(receipts, mac, frame) + (if Relevant(dup, mac, frame) then [EventOf(dup)] else [])
    ensures Relevant(dup, mac, frame) ==> DeliveredAgain(Arrived(receipts, mac, frame), EventOf(r), EventOf(dup))
  {
    EventsOfSnoc(receipts, dup, mac, frame);
    if Relevant(dup, mac, frame) {
      var kept := Filter(receipts, RelevantTo(mac, frame));
      FilterMembers(receipts, RelevantTo(mac, frame));
      assert Relevant(r, mac, frame);
      EventOfMember(kept, r);
      forall a, b | a in EventsOf(kept) && b in EventsOf(kept) && a.id == b.id
        ensures a == b
      {
        var x := EventComes(kept, a);
        var y := EventComes(kept, b);
        assert x in receipts && y in receipts && x.id == y.id;
      }
      forall a | a in EventsOf(kept)
        ensures a.id != dup.id
      {
        var x := EventComes(kept, a);
        assert x in receipts;
      }
    }
  }

  lemma {:induction false} EventOfMember(receipts: seq<Receipt>, r: Receipt)
    requires r in receipts
    ensures EventOf(r) in EventsOf(receipts)
  {
    var before, last := receipts[..|receipts| - 1], receipts[|receipts| - 1];
    assert receipts == before + [last];
    if r in before {
      EventOfMember(before, r);
    }
  }

  /** What the repeat can make of its device's record: the type shown for the trigger, exactly when the repeat takes it
      over, and one outcome group at most, the one it joins. Nothing the device is judged by is among it. */
  ghost predicate OnceMore(a: DeviceDeployment, b: DeviceDeployment, events: seq<Event>, dup: Event, audit: Name) {
    && b == a.(trigger := b.trigger, outcomes := b.outcomes)
    && b.trigger == (if TakesOverTrigger(Shown(OwnTriggers(events, audit)), dup, audit) then Some(dup.eventType)
                     else a.trigger)
    && (exists p, u :: DeviceOf(a, a.mac, a.site, events, audit, p, u)
                       && OutcomesAgain(a.outcomes, b.outcomes, p, dup, TriggersOf(events), audit))
    && AtMostOneChanges(a.outcomes, b.outcomes)
  }

  ghost predicate AtMostOneChanges(before: seq<PairedOutcome>, after: seq<PairedOutcome>) {
    && |before| == |after|
    && forall k, l | 0 <= k < |before| && 0 <= l < |before| && before[k] != after[k] && before[l] != after[l] :: k == l
  }

  /** One row device: untouched by the repeat, or its own and then changed in this only. */
  lemma DeviceAgain(receipts: seq<Receipt>, r: Receipt, dup: Receipt, a: DeviceDeployment, b: DeviceDeployment,
                    frame: Frame, mac: Name, site: Option<Name>)
    requires ReceivedAgain(receipts, r, dup)
    requires PairedFor(a, receipts, frame, mac, site) && PairedFor(b, receipts + [dup], frame, mac, site)
    ensures if Relevant(dup, mac, frame)
            then OnceMore(a, b, DeviceEvents(receipts, mac, frame), EventOf(dup), frame.auditId) else b == a
    ensures b.judgement == a.judgement
    ensures forall g :: GapFound(g, DeviceEvents(receipts, mac, frame), frame.auditId, a.judgement)
                   <==> GapFound(g, DeviceEvents(receipts + [dup], mac, frame), frame.auditId, b.judgement)
  {
    ArrivedAgain(receipts, r, dup, mac, frame);
    var events := Arrived(receipts, mac, frame);
    if Relevant(dup, mac, frame) {
      var p, u :| DeviceOf(a, mac, site, DeviceEvents(receipts, mac, frame), frame.auditId, p, u);
      var q, v :| DeviceOf(b, mac, site, DeviceEvents(receipts + [dup], mac, frame), frame.auditId, q, v);
      DeliveredTwice(events, EventOf(r), EventOf(dup), frame.auditId, mac, site, a, b, p, q, u, v);
    } else {
      assert events + [] == events;
      RecordUnique(a, b, mac, site, DeviceEvents(receipts, mac, frame), frame.auditId);
    }
  }

  /** The gaps are those found on the devices, judged as before. */
  lemma GapsAgain(receipts: seq<Receipt>, r: Receipt, dup: Receipt, one: seq<DeviceDeployment>,
                  two: seq<DeviceDeployment>, frame: Frame, macs: seq<Name>, targets: map<Name, Target>, g: GapKind,
                  mac: Name)
    requires ReceivedAgain(receipts, r, dup)
    requires AllPaired(one, receipts, frame, macs, targets) && AllPaired(two, receipts + [dup], frame, macs, targets)
    ensures GapOn(g, mac, one, receipts, frame) <==> GapOn(g, mac, two, receipts + [dup], frame)
  {
    forall i | 0 <= i < |macs|
      ensures one[i].mac == macs[i] == two[i].mac && one[i] in one && two[i] in two
      ensures GapFound(g, DeviceEvents(receipts, macs[i], frame), frame.auditId, one[i].judgement)
         <==> GapFound(g, DeviceEvents(receipts + [dup], macs[i], frame), frame.auditId, two[i].judgement)
    {
      var site := targets[macs[i]].site;
      assert PairedFor(one[i], receipts, frame, macs[i], site) && PairedFor(two[i], receipts + [dup], frame, macs[i], site);
      DeviceAgain(receipts, r, dup, one[i], two[i], frame, macs[i], site);
    }
  }

  /** What a replay concludes: its devices only count for who they are and how they are judged. */
  lemma {:induction false} ConcludedAlike(one: seq<DeviceDeployment>, two: seq<DeviceDeployment>, mac: Name)
    requires |one| == |two| && forall i | 0 <= i < |one| :: one[i].mac == two[i].mac && one[i].judgement == two[i].judgement
    ensures Impacted(one) == Impacted(two)
    ensures DeviceAt(one, mac).Some? <==> DeviceAt(two, mac).Some?
    ensures DeviceAt(one, mac).Some? ==> StatusFor(DeviceAt(one, mac).value) == StatusFor(DeviceAt(two, mac).value)
  {
    if one != [] {
      ConcludedAlike(one[1..], two[1..], mac);
    }
  }

  /** A provider-timed receipt delivered twice never changes what the replay concludes: no status of any obligation, no
      band, no impacted device and no gap. Of the devices it can change its own alone, and only as `OnceMore` says. */
  lemma RedeliveryConcludesTheSame(receipts: seq<Receipt>, r: Receipt, dup: Receipt, one: Replay, two: Replay,
                                   frame: Frame, ledger: Ledger, macs: seq<Name>, targets: map<Name, Target>)
    requires ReceivedAgain(receipts, r, dup)
    requires AllPaired(one.devices, receipts, frame, macs, targets) && SummedUp(one, receipts, frame, ledger)
    requires AllPaired(two.devices, receipts + [dup], frame, macs, targets)
    requires SummedUp(two, receipts + [dup], frame, ledger)
    ensures Concluded(two) == Concluded(one) && two.gaps == one.gaps && two.preconditions == one.preconditions
    ensures forall i | 0 <= i < |macs| ::
              if Relevant(dup, macs[i], frame)
              then macs[i] == dup.mac && OnceMore(one.devices[i], two.devices[i], DeviceEvents(receipts, dup.mac, frame),
                                                  EventOf(dup), frame.auditId)
              else two.devices[i] == one.devices[i]
  {
    forall i | 0 <= i < |macs|
      ensures one.devices[i].mac == two.devices[i].mac && one.devices[i].judgement == two.devices[i].judgement
      ensures if Relevant(dup, macs[i], frame)
              then macs[i] == dup.mac && OnceMore(one.devices[i], two.devices[i], DeviceEvents(receipts, dup.mac, frame),
                                                  EventOf(dup), frame.auditId)
              else two.devices[i] == one.devices[i]
    {
      var site := targets[macs[i]].site;
      assert PairedFor(one.devices[i], receipts, frame, macs[i], site);
      assert PairedFor(two.devices[i], receipts + [dup], frame, macs[i], site);
      DeviceAgain(receipts, r, dup, one.devices[i], two.devices[i], frame, macs[i], site);
    }
    forall mac: Name {
      ConcludedAlike(one.devices, two.devices, mac);
    }
    ConcludedAlike(one.devices, two.devices, dup.mac);
    SameBands(one, two);
    forall named: (GapKind, Name)
      ensures named in one.gaps <==> named in two.gaps
    {
      var (g, mac) := named;
      GapsAgain(receipts, r, dup, one.devices, two.devices, frame, macs, targets, g, mac);
    }
  }

  lemma SameBands(one: Replay, two: Replay)
    requires SeverityOf(one.devices, one.peak, one.current) && SeverityOf(two.devices, two.peak, two.current)
    requires |one.devices| == |two.devices|
    requires forall i | 0 <= i < |one.devices| :: one.devices[i].judgement == two.devices[i].judgement
    ensures one.peak == two.peak && one.current == two.current
  {
    SeverityCarries(two.devices, one.devices, two.peak, two.current);
    SeverityUnique(one.devices, one.peak, one.current, two.peak, two.current);
  }

  lemma SeverityCarries(from: seq<DeviceDeployment>, to: seq<DeviceDeployment>, peak: Band, current: Band)
    requires SeverityOf(from, peak, current) && |from| == |to|
    requires forall i | 0 <= i < |from| :: from[i].judgement == to[i].judgement
    ensures SeverityOf(to, peak, current)
  {
    forall d | d in to
      ensures Rank(d.judgement.peak) <= Rank(peak) && Rank(d.judgement.current) <= Rank(current)
    {
      var i :| 0 <= i < |to| && to[i] == d;
      assert from[i] in from;
    }
    if d :| d in from && d.judgement.peak == peak {
      var i :| 0 <= i < |from| && from[i] == d;
      assert to[i] in to;
    }
    if d :| d in from && d.judgement.current == current {
      var i :| 0 <= i < |from| && from[i] == d;
      assert to[i] in to;
    }
  }

  /** Nor does it move the change time every replay is framed by. */
  lemma RedeliveryKeepsAnchor(receipts: seq<Receipt>, r: Receipt, dup: Receipt, audit: Name, auditTime: Option<int>,
                              receivedAt: int, asOf: int)
    requires ReceivedAgain(receipts, r, dup)
    ensures ResolveAnchor(receipts + [dup], audit, auditTime, receivedAt, asOf)
         == ResolveAnchor(receipts, audit, auditTime, receivedAt, asOf)
  {
    var timed := (x: Receipt) => TimesChange(x, audit, asOf);
    FilterSnoc(receipts, dup, timed);
    var before := Filter(receipts, timed);
    FilterMembers(receipts, timed);
    if timed(dup) {
      assert r in before;
      SecondsAgain(before, r, dup);
    } else {
      assert before + [] == before;
    }
  }

  lemma SecondsAgain(receipts: seq<Receipt>, r: Receipt, dup: Receipt)
    requires r in receipts && EventOf(dup).second == EventOf(r).second
    ensures EarliestSecond(receipts + [dup]) == EarliestSecond(receipts)
  {
    EarliestSecondMeans(receipts);
    EarliestSecondMeans(receipts + [dup]);
    assert forall x :: x in receipts + [dup] <==> x in receipts || x == dup;
  }
}
