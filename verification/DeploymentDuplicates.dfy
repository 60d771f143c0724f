/** A receipt delivered twice: the judgement never changes; what can change, and exactly when. */
module DeploymentDuplicates {
  import opened Contracts
  import opened Ordering
  import opened Obligations
  import opened Deployment
  import opened DeploymentTheorems

  /** The same event under another receipt id. */
  predicate Same(a: Event, b: Event) {
    a.(id := b.id) == b
  }

  /** The same events up to receipt ids and repetition. */
  ghost predicate Similar(a: seq<Event>, b: seq<Event>) {
    Within(a, b) && Within(b, a)
  }

  ghost predicate Within(a: seq<Event>, b: seq<Event>) {
    forall x {:trigger HasTwin(x, b)} | x in a :: HasTwin(x, b)
  }

  ghost predicate HasTwin(x: Event, s: seq<Event>) {
    exists y :: y in s && Same(x, y)
  }

  // Pairing an outcome depends on the triggers only up to receipt ids.

  lemma LinkedSimilar(o: Event, p: Event, a: seq<Event>, b: seq<Event>)
    requires Same(o, p) && Within(a, b)
    ensures (exists t | t in a :: Linked(t, o)) ==> exists t | t in b :: Linked(t, p)
    ensures (exists t | t in a :: Confirms(t, o)) ==> exists t | t in b :: Confirms(t, p)
  {
    if t :| t in a && Linked(t, o) {
      assert HasTwin(t, b);
      var u :| u in b && Same(t, u);
      assert Linked(u, p);
    }
    if t :| t in a && Confirms(t, o) {
      assert HasTwin(t, b);
      var u :| u in b && Same(t, u);
      assert Confirms(u, p);
    }
  }

  lemma SupersededSimilar(o: Event, p: Event, t: Event, u: Event, a: seq<Event>, b: seq<Event>)
    requires Same(o, p) && Same(t, u) && Within(a, b)
    ensures (exists x | x in a :: SurelyBetween(x, t, o)) ==> exists y | y in b :: SurelyBetween(y, u, p)
  {
    if x :| x in a && SurelyBetween(x, t, o) {
      assert HasTwin(x, b);
      var y :| y in b && Same(x, y);
      assert SurelyBetween(y, u, p);
    }
  }

  /** A trigger that may be the latest has a twin that may be. */
  lemma FallbackTwin(o: Event, p: Event, a: seq<Event>, b: seq<Event>, t: Event) returns (u: Event)
    requires Same(o, p) && Similar(a, b) && t in FallbackTriggers(o, a)
    ensures u in FallbackTriggers(p, b) && Same(t, u) && IdentityOf(u) == IdentityOf(t)
  {
    FallbackMembers(o, a);
    FallbackMembers(p, b);
    assert HasTwin(t, b);
    u :| u in b && Same(t, u);
    SupersededSimilar(p, o, u, t, b, a);
    assert MayBeLatest(u, p, b);
  }

  function Identities(found: seq<Event>): set<Identity> {
    set t | t in found :: IdentityOf(t)
  }

  lemma FallbackWithin(o: Event, p: Event, a: seq<Event>, b: seq<Event>)
    requires Same(o, p) && Similar(a, b)
    ensures Identities(FallbackTriggers(o, a)) <= Identities(FallbackTriggers(p, b))
    ensures (exists t | t in FallbackTriggers(o, a) :: !t.timed) ==> exists t | t in FallbackTriggers(p, b) :: !t.timed
  {
    forall t | t in FallbackTriggers(o, a)
      ensures IdentityOf(t) in Identities(FallbackTriggers(p, b))
    {
      var u := FallbackTwin(o, p, a, b, t);
    }
    if t :| t in FallbackTriggers(o, a) && !t.timed {
      var u := FallbackTwin(o, p, a, b, t);
    }
  }

  lemma FallbackSimilar(o: Event, p: Event, a: seq<Event>, b: seq<Event>, audit: Name)
    requires Same(o, p) && Similar(a, b)
    ensures TimeFallback(o, a, audit) == TimeFallback(p, b, audit)
  {
    FallbackWithin(o, p, a, b);
    FallbackWithin(p, o, b, a);
    assert Identities(FallbackTriggers(o, a)) == Identities(FallbackTriggers(p, b));
  }

  lemma PairSimilar(o: Event, p: Event, a: seq<Event>, b: seq<Event>, audit: Name)
    requires Same(o, p) && Similar(a, b)
    ensures Pair(o, a, audit) == Pair(p, b, audit)
  {
    LinkedSimilar(o, p, a, b);
    LinkedSimilar(p, o, b, a);
    FallbackSimilar(o, p, a, b, audit);
  }

  lemma TriggersSimilar(a: seq<Event>, b: seq<Event>)
    requires Similar(a, b)
    ensures Similar(TriggersOf(a), TriggersOf(b))
  {
    FilterMembers(a, (e: Event) => !IsOutcome(e));
    FilterMembers(b, (e: Event) => !IsOutcome(e));
    forall x | x in TriggersOf(a)
      ensures HasTwin(x, TriggersOf(b))
    {
      assert HasTwin(x, b);
      var y :| y in b && Same(x, y);
      assert y in TriggersOf(b);
    }
    forall y | y in TriggersOf(b)
      ensures HasTwin(y, TriggersOf(a))
    {
      assert HasTwin(y, a);
      var x :| x in a && Same(y, x);
      assert x in TriggersOf(a);
    }
  }

  // The judgement depends on the paired outcomes only up to receipt ids.

  ghost predicate PairedTwin(x: Assigned, s: seq<Assigned>) {
    exists y :: y in s && Same(x.event, y.event) && x.link == y.link
  }

  ghost predicate UncertainTwin(x: Uncertain, s: seq<Uncertain>) {
    exists y :: y in s && Same(x.event, y.event) && x.doubt == y.doubt
  }

  ghost predicate PairedWithin(p: seq<Assigned>, q: seq<Assigned>) {
    forall x {:trigger PairedTwin(x, q)} | x in p :: PairedTwin(x, q)
  }

  ghost predicate UncertainWithin(p: seq<Uncertain>, q: seq<Uncertain>) {
    forall x {:trigger UncertainTwin(x, q)} | x in p :: UncertainTwin(x, q)
  }

  lemma PairedSimilar(a: seq<Event>, b: seq<Event>, audit: Name, p: seq<Assigned>, q: seq<Assigned>, x: Assigned)
    requires Similar(a, b)
    requires AssignedOf(p, a, TriggersOf(a), audit) && AssignedOf(q, b, TriggersOf(b), audit)
    requires x in p
    ensures PairedTwin(x, q)
  {
    AssignedMembers(p, a, TriggersOf(a), audit);
    AssignedMembers(q, b, TriggersOf(b), audit);
    assert HasTwin(x.event, b);
    var e :| e in b && Same(x.event, e);
    TriggersSimilar(a, b);
    PairSimilar(x.event, e, TriggersOf(a), TriggersOf(b), audit);
    assert Assigned(e, x.link) in q;
  }

  lemma UncertainSimilar(a: seq<Event>, b: seq<Event>, audit: Name, p: seq<Uncertain>, q: seq<Uncertain>, x: Uncertain)
    requires Similar(a, b)
    requires UncertainOf(p, a, TriggersOf(a), audit) && UncertainOf(q, b, TriggersOf(b), audit)
    requires x in p
    ensures UncertainTwin(x, q)
  {
    UncertainMembers(p, a, TriggersOf(a), audit);
    UncertainMembers(q, b, TriggersOf(b), audit);
    assert HasTwin(x.event, b);
    var e :| e in b && Same(x.event, e);
    TriggersSimilar(a, b);
    PairSimilar(x.event, e, TriggersOf(a), TriggersOf(b), audit);
    assert Uncertain(e, x.doubt) in q;
  }

  /** What the judgement reads of the paired outcomes grows with them. */
  lemma ReadingsWithin(p: seq<Assigned>, q: seq<Assigned>)
    requires AllOutcomes(p) && AllOutcomes(q) && PairedWithin(p, q)
    ensures AnyTrouble(p) ==> AnyTrouble(q)
    ensures (exists x | x in p :: x.link == ByAudit) ==> exists y | y in q :: y.link == ByAudit
    ensures forall last :: FinalKinds(p, last) <= FinalKinds(q, last)
    ensures LastSecond(p).Some? ==> LastSecond(q).Some? && LastSecond(p).value <= LastSecond(q).value
  {
    if x :| x in p && Troubled(KindOf(x)) {
      assert PairedTwin(x, q);
      var y :| y in q && Same(x.event, y.event) && x.link == y.link;
      assert Troubled(KindOf(y));
    }
    if x :| x in p && x.link == ByAudit {
      assert PairedTwin(x, q);
    }
    forall last, kind | kind in FinalKinds(p, last)
      ensures kind in FinalKinds(q, last)
    {
      var x :| x in p && x.event.second == last && KindOf(x) == kind;
      assert PairedTwin(x, q);
      var y :| y in q && Same(x.event, y.event) && x.link == y.link;
      assert KindOf(y) == kind;
    }
    LastSecondIsLatest(p);
    LastSecondIsLatest(q);
    if LastSecond(p).Some? {
      var x :| x in p && x.event.second == LastSecond(p).value;
      assert PairedTwin(x, q);
    }
  }

  lemma DoubtsWithin(p: seq<Uncertain>, q: seq<Uncertain>, last: Option<int>)
    requires UncertainWithin(p, q)
    ensures (exists u | u in p :: Unsettles(u, last)) ==> exists u | u in q :: Unsettles(u, last)
    ensures (exists u | u in p :: Unsettles(u, last) && u.doubt == ByReceiptTime)
        ==> exists u | u in q :: Unsettles(u, last) && u.doubt == ByReceiptTime
  {
    if u :| u in p && Unsettles(u, last) {
      assert UncertainTwin(u, q);
      var v :| v in q && Same(u.event, v.event) && u.doubt == v.doubt;
      assert Unsettles(v, last);
    }
    if u :| u in p && Unsettles(u, last) && u.doubt == ByReceiptTime {
      assert UncertainTwin(u, q);
      var v :| v in q && Same(u.event, v.event) && u.doubt == v.doubt;
      assert Unsettles(v, last);
    }
  }

  lemma JudgeSimilar(hasTrigger: bool, p: seq<Assigned>, q: seq<Assigned>, u: seq<Uncertain>, v: seq<Uncertain>)
    requires AllOutcomes(p) && AllOutcomes(q)
    requires PairedWithin(p, q)
    requires PairedWithin(q, p)
    requires UncertainWithin(u, v)
    requires UncertainWithin(v, u)
    ensures Judge(hasTrigger, p, u) == Judge(hasTrigger, q, v)
  {
    ReadingsWithin(p, q);
    ReadingsWithin(q, p);
    assert LastSecond(p) == LastSecond(q);
    DoubtsWithin(u, v, LastSecond(p));
    DoubtsWithin(v, u, LastSecond(p));
    if LastSecond(p).Some? {
      var last := LastSecond(p).value;
      assert FinalKinds(p, last) == FinalKinds(q, last);
    }
  }

  /** Pairing two event lists that agree up to receipt ids and repetition judges the device alike. */
  lemma SimilarJudgement(a: seq<Event>, b: seq<Event>, audit: Name, p: seq<Assigned>, q: seq<Assigned>,
                         u: seq<Uncertain>, v: seq<Uncertain>)
    requires Similar(a, b) && AllOutcomes(p) && AllOutcomes(q)
    requires AssignedOf(p, a, TriggersOf(a), audit) && AssignedOf(q, b, TriggersOf(b), audit)
    requires UncertainOf(u, a, TriggersOf(a), audit) && UncertainOf(v, b, TriggersOf(b), audit)
    ensures Judge(OwnTriggers(a, audit) != [], p, u) == Judge(OwnTriggers(b, audit) != [], q, v)
  {
    forall x | x in p { PairedSimilar(a, b, audit, p, q, x); }
    forall y | y in q { PairedSimilar(b, a, audit, q, p, y); }
    forall x | x in u { UncertainSimilar(a, b, audit, u, v, x); }
    forall y | y in v { UncertainSimilar(b, a, audit, v, u, y); }
    OwnSimilar(a, b, audit);
    JudgeSimilar(OwnTriggers(a, audit) != [], p, q, u, v);
  }

  lemma OwnSimilar(a: seq<Event>, b: seq<Event>, audit: Name)
    requires Similar(a, b)
    ensures Similar(OwnTriggers(a, audit), OwnTriggers(b, audit))
    ensures OwnTriggers(a, audit) != [] <==> OwnTriggers(b, audit) != []
  {
    OwnWithin(a, b, audit);
    OwnWithin(b, a, audit);
  }

  lemma OwnWithin(a: seq<Event>, b: seq<Event>, audit: Name)
    requires Within(a, b)
    ensures Within(OwnTriggers(a, audit), OwnTriggers(b, audit))
    ensures OwnTriggers(a, audit) != [] ==> OwnTriggers(b, audit) != []
  {
    var own := (e: Event) => !IsOutcome(e) && e.auditId == Some(audit);
    FilterMembers(a, own);
    FilterMembers(b, own);
    forall x | x in OwnTriggers(a, audit)
      ensures HasTwin(x, OwnTriggers(b, audit))
    {
      assert HasTwin(x, b);
      var y :| y in b && Same(x, y);
      assert y in OwnTriggers(b, audit);
    }
    if OwnTriggers(a, audit) != [] {
      assert OwnTriggers(a, audit)[0] in OwnTriggers(a, audit);
      assert HasTwin(OwnTriggers(a, audit)[0], OwnTriggers(b, audit));
    }
  }

  // One receipt delivered twice.

  /** `dup` is `e` delivered again under a new receipt id, both with the provider's time. */
  ghost predicate DeliveredAgain(events: seq<Event>, e: Event, dup: Event) {
    && e in events && Same(e, dup) && dup.timed
    && DistinctIds(events) && forall x | x in events :: x.id != dup.id
  }

  lemma SortedEvents(events: seq<Event>)
    requires DistinctIds(events)
    ensures forall x :: x in Prioritized(events, EventLeq) <==> x in events
    ensures DistinctIds(Prioritized(events, EventLeq))
  {
    SortedMembers(events, EventLeq);
  }

  lemma TwinIn(x: Event, y: Event, s: seq<Event>)
    requires Same(x, y) && y in s
    ensures HasTwin(x, s)
  {
  }

  lemma SubsetWithin(a: seq<Event>, b: seq<Event>)
    requires forall x | x in a :: x in b
    ensures Within(a, b)
  {
    forall x | x in a
      ensures HasTwin(x, b)
    {
      TwinIn(x, x, b);
    }
  }

  lemma OneMoreWithin(a: seq<Event>, b: seq<Event>, e: Event, dup: Event)
    requires e in a && Same(dup, e) && forall x | x in b :: x in a || x == dup
    ensures Within(b, a)
  {
    forall y | y in b
      ensures HasTwin(y, a)
    {
      if y == dup {
        TwinIn(y, e, a);
      } else {
        TwinIn(y, y, a);
      }
    }
  }

  lemma OneMore(a: seq<Event>, b: seq<Event>, e: Event, dup: Event)
    requires e in a && Same(e, dup) && forall x :: x in b <==> x in a || x == dup
    ensures Similar(a, b)
  {
    SubsetWithin(a, b);
    OneMoreWithin(a, b, e, dup);
  }

  lemma AgainSimilar(events: seq<Event>, e: Event, dup: Event)
    requires DeliveredAgain(events, e, dup)
    ensures var a, b := Prioritized(events, EventLeq), Prioritized(events + [dup], EventLeq);
            e in a && DistinctIds(b) && forall x :: x in b <==> x in a || x == dup
    ensures DistinctIds(events + [dup])
  {
    assert forall x :: x in events + [dup] <==> x in events || x == dup;
    SortedEvents(events);
    SortedEvents(events + [dup]);
  }

  // The trigger shown.

  lemma {:induction false} LatestIsGreatest(s: seq<Event>)
    requires s != []
    ensures Latest(s) in s && forall x | x in s :: EventLeq(x, Latest(s))
  {
    EventOrder();
    if |s| > 1 {
      var before := s[..|s| - 1];
      LatestIsGreatest(before);
      assert s == before + [s[|s| - 1]];
      assert forall x :: x in s <==> x in before || x == s[|s| - 1];
      forall x | x in s
        ensures EventLeq(x, Latest(s))
      {
        if x in before {
          assert EventLeq(x, Latest(before));
        }
      }
    }
  }

  lemma {:induction false} EarliestIsLeast(s: seq<Event>)
    requires s != []
    ensures Earliest(s) in s && forall x | x in s :: EventLeq(Earliest(s), x)
  {
    EventOrder();
    if |s| > 1 {
      var before := s[..|s| - 1];
      EarliestIsLeast(before);
      assert s == before + [s[|s| - 1]];
      assert forall x :: x in s <==> x in before || x == s[|s| - 1];
      forall x | x in s
        ensures EventLeq(Earliest(s), x)
      {
        if x in before {
          assert EventLeq(Earliest(before), x);
        }
      }
    }
  }

  /** Adding one event to a group moves its latest only if the event comes after it. */
  lemma LatestWith(a: seq<Event>, b: seq<Event>, dup: Event)
    requires a != [] && b != [] && DistinctIds(b)
    requires forall x :: x in b <==> x in a || x == dup
    ensures Latest(b) == if EventLeq(dup, Latest(a)) then Latest(a) else dup
  {
    EventOrder();
    LatestIsGreatest(a);
    LatestIsGreatest(b);
    assert EventLeq(Latest(a), Latest(b)) && EventLeq(dup, Latest(b));
    assert Latest(b) == dup || EventLeq(Latest(b), Latest(a));
  }

  lemma EarliestWith(a: seq<Event>, b: seq<Event>, dup: Event)
    requires a != [] && b != [] && DistinctIds(b)
    requires forall x :: x in b <==> x in a || x == dup
    ensures Earliest(b) == if EventLeq(Earliest(a), dup) then Earliest(a) else dup
  {
    EventOrder();
    EarliestIsLeast(a);
    EarliestIsLeast(b);
    assert EventLeq(Earliest(b), Earliest(a)) && EventLeq(Earliest(b), dup);
    assert Earliest(b) == dup || EventLeq(Earliest(a), Earliest(b));
  }

  lemma KeptGrows<T(!new)>(ma: multiset<T>, mb: multiset<T>, fa: multiset<T>, fb: multiset<T>, x: T, keep: T -> bool)
    requires mb == ma + multiset{x}
    requires forall y :: fa[y] == if keep(y) then ma[y] else 0
    requires forall y :: fb[y] == if keep(y) then mb[y] else 0
    ensures fb == fa + (if keep(x) then multiset{x} else multiset{})
  {
  }

  /** Filtering keeps sizes across orders, and one more kept item is one more. */
  lemma FilterGrown<T(!new)>(a: seq<T>, b: seq<T>, x: T, keep: T -> bool)
    requires multiset(b) == multiset(a) + multiset{x}
    ensures |Filter(b, keep)| == |Filter(a, keep)| + (if keep(x) then 1 else 0)
  {
    FilterPermuted(a, keep);
    FilterPermuted(b, keep);
    KeptGrows(multiset(a), multiset(b), multiset(Filter(a, keep)), multiset(Filter(b, keep)), x, keep);
    assert |multiset(Filter(b, keep))| == |Filter(b, keep)|;
  }

  /** The trigger shown keeps its instant, and its type unless the repeat, in the shown trigger's own second, is of
      another type and sorts after it. */
  lemma ShownWith(a: seq<Event>, b: seq<Event>, e: Event, dup: Event, audit: Name)
    requires Same(e, dup) && dup.timed && e in a && DistinctIds(b)
    requires forall x :: x in b <==> x in a || x == dup
    requires !IsOutcome(e) && e.auditId == Some(audit)
    ensures var shownA, shownB := Shown(OwnTriggers(a, audit)), Shown(OwnTriggers(b, audit));
            && shownA.Some? && shownB.Some? && shownA.value.timed && shownB.value.timed
            && shownA.value.second == shownB.value.second
            && shownB.value == if EventLeq(dup, shownA.value) then shownA.value else dup
  {
    var own := (x: Event) => !IsOutcome(x) && x.auditId == Some(audit);
    var timed := (x: Event) => x.timed;
    FilterMembers(a, own);
    FilterMembers(b, own);
    var ownA, ownB := OwnTriggers(a, audit), OwnTriggers(b, audit);
    FilterMembers(ownA, timed);
    FilterMembers(ownB, timed);
    assert e in Timed(ownA) && dup in Timed(ownB);
    LatestWith(Timed(ownA), Timed(ownB), dup);
    LatestIsGreatest(Timed(ownA));
    assert EventLeq(e, Latest(Timed(ownA)));
  }

  lemma ShownWithout(a: seq<Event>, b: seq<Event>, dup: Event, audit: Name)
    requires multiset(b) == multiset(a) + multiset{dup}
    requires IsOutcome(dup) || dup.auditId != Some(audit)
    requires InOrder(a, EventLeq) && InOrder(b, EventLeq) && DistinctIds(b)
    ensures OwnTriggers(a, audit) == OwnTriggers(b, audit)
  {
    var own := (x: Event) => !IsOutcome(x) && x.auditId == Some(audit);
    EventOrder();
    FilterPermuted(a, own);
    FilterPermuted(b, own);
    FilterMembers(b, own);
    var ownA, ownB := OwnTriggers(a, audit), OwnTriggers(b, audit);
    assert multiset(ownA) == multiset(ownB);
    FilterInOrder(a, own);
    FilterInOrder(b, own);
    forall x, y | x in ownB && y in ownB && EventLeq(x, y) && EventLeq(y, x)
      ensures x == y
    {
      assert x in b && y in b && x.id == y.id;
    }
    OrderUnique(ownB, ownA, EventLeq);
  }

  lemma {:induction false} FilterInOrder(s: seq<Event>, keep: Event -> bool)
    requires InOrder(s, EventLeq)
    ensures InOrder(Filter(s, keep), EventLeq)
  {
    if s != [] {
      EventOrder();
      TailInOrder(s, EventLeq);
      FilterInOrder(s[1..], keep);
      FilterMembers(s[1..], keep);
      var rest := Filter(s[1..], keep);
      if keep(s[0]) && rest != [] {
        assert rest[0] in s[1..];
        var i :| 0 <= i < |s[1..]| && s[1..][i] == rest[0];
        FirstIsLeast(s, EventLeq, i + 1);
        assert Filter(s, keep) == [s[0]] + rest;
      }
    }
  }

  // The paired outcomes.

  function InKey(triggers: seq<Event>, audit: Name, key: GroupKey): Event -> bool {
    (e: Event) => IsAssigned(e, triggers, audit) && e.second == key.second && e.eventType.kind == key.kind
  }

  /** A group's events are the assigned events of its second and kind. */
  lemma {:induction false} GroupEvents(paired: seq<Assigned>, key: GroupKey)
    requires AllOutcomes(paired)
    ensures EventsIn(Group(paired, key))
         == Filter(EventsIn(paired), (e: Event) => IsOutcome(e) && e.second == key.second && e.eventType.kind == key.kind)
  {
    if paired != [] {
      GroupEvents(paired[1..], key);
      assert paired[0] in paired;
      assert EventsIn(paired)[1..] == EventsIn(paired[1..]);
      var rest := Group(paired[1..], key);
      if InGroup(paired[0], key) {
        assert Group(paired, key) == [paired[0]] + rest;
        assert EventsIn([paired[0]] + rest) == [paired[0].event] + EventsIn(rest);
      } else {
        assert Group(paired, key) == rest;
      }
    }
  }

  lemma GroupFiltered(events: seq<Event>, audit: Name, paired: seq<Assigned>, key: GroupKey)
    requires AssignedOf(paired, events, TriggersOf(events), audit) && AllOutcomes(paired)
    ensures EventsIn(Group(paired, key)) == Filter(events, InKey(TriggersOf(events), audit, key))
    ensures |Group(paired, key)| == |Filter(events, InKey(TriggersOf(events), audit, key))|
  {
    var assigns := Assigns(TriggersOf(events), audit);
    var inKey := (e: Event) => IsOutcome(e) && e.second == key.second && e.eventType.kind == key.kind;
    assert EventsIn(paired) == Filter(events, assigns);
    GroupEvents(paired, key);
    FilterTwice(events, assigns, inKey, InKey(TriggersOf(events), audit, key));
  }

  // The theorem.

  /** The repeat is an own trigger that takes over what is shown: in the shown trigger's second, sorting after it. */
  predicate TakesOverTrigger(shown: Option<Event>, dup: Event, audit: Name) {
    !IsOutcome(dup) && dup.auditId == Some(audit) && shown.Some? && !EventLeq(dup, shown.value)
  }

  /** What the repeat makes of one outcome group: one more of it if it joins, shown as the repeat if it then comes first. */
  function Again(before: PairedOutcome, first: Event, dup: Event, joins: bool): PairedOutcome {
    if !joins then before
    else before.(count := before.count + 1,
                 eventType := if EventLeq(first, dup) then before.eventType else dup.eventType)
  }

  function KeyAt(o: PairedOutcome): GroupKey {
    GroupKey(o.second, o.kind)
  }

  /** The outcomes shown with the repeat: the same groups in the same order, each one what the repeat makes of it. */
  ghost predicate OutcomesAgain(before: seq<PairedOutcome>, after: seq<PairedOutcome>, p: seq<Assigned>, dup: Event,
                                triggers: seq<Event>, audit: Name)
  {
    && |before| == |after|
    && forall k | 0 <= k < |before| ::
         Group(p, KeyAt(before[k])) != []
         && after[k] == Again(before[k], Earliest(EventsIn(Group(p, KeyAt(before[k])))), dup,
                              Joins(dup, triggers, audit, KeyAt(before[k])))
  }

  /** Delivering a provider-timed receipt twice changes nothing of a device and none of its gaps, but these two: the type
      shown for its trigger, exactly when the repeat takes it over; and one outcome group at most, the one the repeat
      joins, which counts one more and is shown as the repeat exactly when that then comes first. */
  lemma DeliveredTwice(events: seq<Event>, e: Event, dup: Event, audit: Name, mac: Name, site: Option<Name>,
                       a: DeviceDeployment, b: DeviceDeployment, p: seq<Assigned>, q: seq<Assigned>,
                       u: seq<Uncertain>, v: seq<Uncertain>)
    requires DeliveredAgain(events, e, dup)
    requires DeviceOf(a, mac, site, Prioritized(events, EventLeq), audit, p, u)
    requires DeviceOf(b, mac, site, Prioritized(events + [dup], EventLeq), audit, q, v)
    ensures b == a.(trigger := b.trigger, outcomes := b.outcomes)
    ensures var shown := Shown(OwnTriggers(Prioritized(events, EventLeq), audit));
            b.trigger == if TakesOverTrigger(shown, dup, audit) then Some(dup.eventType) else a.trigger
    ensures OutcomesAgain(a.outcomes, b.outcomes, p, dup, TriggersOf(Prioritized(events, EventLeq)), audit)
    ensures forall k, l | 0 <= k < |a.outcomes| && 0 <= l < |a.outcomes| && a.outcomes[k] != b.outcomes[k]
                          && a.outcomes[l] != b.outcomes[l] :: k == l
    ensures forall g :: GapFound(g, Prioritized(events, EventLeq), audit, a.judgement)
                   <==> GapFound(g, Prioritized(events + [dup], EventLeq), audit, b.judgement)
  {
    var one, two := Prioritized(events, EventLeq), Prioritized(events + [dup], EventLeq);
    AgainSimilar(events, e, dup);
    OneMore(one, two, e, dup);
    SimilarJudgement(one, two, audit, p, q, u, v);
    TriggerAgain(events, e, dup, audit);
    OutcomesOfAgain(events, e, dup, audit, p, q);
    OneGroupChanges(a.outcomes, b.outcomes, p, dup, TriggersOf(one), audit);
    GapsSimilar(one, two, audit, a.judgement);
  }

  lemma TriggerAgain(events: seq<Event>, e: Event, dup: Event, audit: Name)
    requires DeliveredAgain(events, e, dup)
    ensures var one, two := Shown(OwnTriggers(Prioritized(events, EventLeq), audit)),
                            Shown(OwnTriggers(Prioritized(events + [dup], EventLeq), audit));
            if !TakesOverTrigger(one, dup, audit) then two == one
            else two == Some(dup) && dup.timed && one.Some? && one.value.timed && one.value.second == dup.second
  {
    var one, two := Prioritized(events, EventLeq), Prioritized(events + [dup], EventLeq);
    AgainSimilar(events, e, dup);
    if !IsOutcome(dup) && dup.auditId == Some(audit) {
      ShownWith(one, two, e, dup, audit);
    } else {
      EventOrder();
      PrioritizedOrdered(events, EventLeq);
      PrioritizedOrdered(events + [dup], EventLeq);
      ShownWithout(one, two, dup, audit);
    }
  }

  // The gaps.

  lemma LinkedTwin(o: Event, p: Event, a: seq<Event>, b: seq<Event>, audit: Name)
    requires Same(o, p) && Similar(a, b)
    ensures PairGap(o, a, audit) == PairGap(p, b, audit)
  {
    PairSimilar(o, p, a, b, audit);
    LinkedSimilar(o, p, a, b);
    LinkedSimilar(p, o, b, a);
    InTimeWithin(o, p, a, b);
    InTimeWithin(p, o, b, a);
    EarlierWithin(o, p, a, b, audit);
    EarlierWithin(p, o, b, a, audit);
    FoundWithin(o, p, a, b);
    FoundWithin(p, o, b, a);
  }

  lemma InTimeWithin(o: Event, p: Event, a: seq<Event>, b: seq<Event>)
    requires Same(o, p) && Within(a, b)
    ensures (exists t | t in a :: Confirms(t, o) && o.second - t.second <= PAIRING_BOUND)
        ==> exists t | t in b :: Confirms(t, p) && p.second - t.second <= PAIRING_BOUND
  {
    if t :| t in a && Confirms(t, o) && o.second - t.second <= PAIRING_BOUND {
      assert HasTwin(t, b);
      var x :| x in b && Same(t, x);
      assert Confirms(x, p);
    }
  }

  lemma EarlierWithin(o: Event, p: Event, a: seq<Event>, b: seq<Event>, audit: Name)
    requires Same(o, p) && Within(a, b)
    ensures (exists t | t in a :: t.auditId == Some(audit) && MayPrecede(t, o))
        ==> exists t | t in b :: t.auditId == Some(audit) && MayPrecede(t, p)
  {
    if t :| t in a && t.auditId == Some(audit) && MayPrecede(t, o) {
      assert HasTwin(t, b);
      var x :| x in b && Same(t, x);
      assert MayPrecede(x, p);
    }
  }

  lemma FoundWithin(o: Event, p: Event, a: seq<Event>, b: seq<Event>)
    requires Same(o, p) && Similar(a, b)
    ensures FallbackTriggers(o, a) != [] ==> FallbackTriggers(p, b) != []
  {
    if FallbackTriggers(o, a) != [] {
      assert FallbackTriggers(o, a)[0] in FallbackTriggers(o, a);
      var x := FallbackTwin(o, p, a, b, FallbackTriggers(o, a)[0]);
    }
  }

  lemma GapsWithin(a: seq<Event>, b: seq<Event>, audit: Name, j: Judgement, g: GapKind)
    requires Similar(a, b) && GapFound(g, a, audit, j)
    ensures GapFound(g, b, audit, j)
  {
    TriggersSimilar(a, b);
    OwnSimilar(a, b, audit);
    if e :| e in a && IsOutcome(e) && PairGap(e, TriggersOf(a), audit) == Some(g) {
      assert HasTwin(e, b);
      var x :| x in b && Same(e, x);
      LinkedTwin(e, x, TriggersOf(a), TriggersOf(b), audit);
      assert LeavesGap(g, b, TriggersOf(b), audit);
    }
    DoubtedWithin(a, b, audit, ByReceiptTime);
    DoubtedWithin(a, b, audit, ByOtherTrigger);
  }

  lemma DoubtedWithin(a: seq<Event>, b: seq<Event>, audit: Name, doubt: Doubt)
    requires Similar(a, b)
    ensures Doubted(a, audit, doubt) ==> Doubted(b, audit, doubt)
  {
    TriggersSimilar(a, b);
    if e :| e in a && IsOutcome(e) && Pair(e, TriggersOf(a), audit) == Unsure(doubt) {
      assert HasTwin(e, b);
      var x :| x in b && Same(e, x);
      PairSimilar(e, x, TriggersOf(a), TriggersOf(b), audit);
    }
  }

  lemma GapsSimilar(a: seq<Event>, b: seq<Event>, audit: Name, j: Judgement)
    requires Similar(a, b)
    ensures forall g :: GapFound(g, a, audit, j) <==> GapFound(g, b, audit, j)
  {
    forall g
      ensures GapFound(g, a, audit, j) <==> GapFound(g, b, audit, j)
    {
      if GapFound(g, a, audit, j) { GapsWithin(a, b, audit, j, g); }
      if GapFound(g, b, audit, j) { GapsWithin(b, a, audit, j, g); }
    }
  }

  // The outcome groups.

  /** Whether the repeat is assigned to the group. */
  predicate Joins(dup: Event, triggers: seq<Event>, audit: Name, key: GroupKey) {
    InKey(triggers, audit, key)(dup)
  }

  /** A group's events before and after the repeat: the same filter over the two event lists. */
  lemma GroupsFiltered(events: seq<Event>, e: Event, dup: Event, audit: Name, p: seq<Assigned>, q: seq<Assigned>,
                       key: GroupKey)
    requires DeliveredAgain(events, e, dup) && AllOutcomes(p) && AllOutcomes(q)
    requires var one := Prioritized(events, EventLeq); AssignedOf(p, one, TriggersOf(one), audit)
    requires var two := Prioritized(events + [dup], EventLeq); AssignedOf(q, two, TriggersOf(two), audit)
    ensures var one, two := Prioritized(events, EventLeq), Prioritized(events + [dup], EventLeq);
            var keep := InKey(TriggersOf(one), audit, key);
            && EventsIn(Group(p, key)) == Filter(one, keep) && EventsIn(Group(q, key)) == Filter(two, keep)
            && |Group(q, key)| == |Group(p, key)| + (if keep(dup) then 1 else 0)
            && Similar(one, two) && DistinctIds(two) && e in one && (forall x :: x in two <==> x in one || x == dup)
            && keep(e) == keep(dup)
  {
    var one, two := Prioritized(events, EventLeq), Prioritized(events + [dup], EventLeq);
    AgainSimilar(events, e, dup);
    OneMore(one, two, e, dup);
    TriggersSimilar(one, two);
    var keepA, keepB := InKey(TriggersOf(one), audit, key), InKey(TriggersOf(two), audit, key);
    SameKeep(TriggersOf(one), TriggersOf(two), audit, key);
    GroupFiltered(one, audit, p, key);
    GroupFiltered(two, audit, q, key);
    FilterAgree(two, keepB, keepA);
    EventOrder();
    PrioritizedOrdered(events, EventLeq);
    PrioritizedOrdered(events + [dup], EventLeq);
    FilterGrown(one, two, dup, keepA);
    KeepsTwin(e, dup, TriggersOf(one), audit, key);
  }

  /** The first event of a filtered list, with one more event that is kept or not. */
  lemma EarliestFiltered(one: seq<Event>, two: seq<Event>, dup: Event, keep: Event -> bool)
    requires Filter(one, keep) != [] && DistinctIds(two) && forall x :: x in two <==> x in one || x == dup
    ensures Filter(two, keep) != []
    ensures var before := Earliest(Filter(one, keep));
            Earliest(Filter(two, keep)) == if keep(dup) && !EventLeq(before, dup) then dup else before
  {
    FilterMembers(one, keep);
    FilterMembers(two, keep);
    assert Filter(one, keep)[0] in Filter(two, keep);
    if keep(dup) {
      EarliestWith(Filter(one, keep), Filter(two, keep), dup);
    } else {
      EarliestSame(Filter(one, keep), Filter(two, keep));
    }
  }

  /** A group is there with the repeat exactly when it is without, and is what the repeat makes of it. */
  lemma GroupDeliveredTwice(events: seq<Event>, e: Event, dup: Event, audit: Name, p: seq<Assigned>, q: seq<Assigned>,
                            key: GroupKey)
    requires DeliveredAgain(events, e, dup) && AllOutcomes(p) && AllOutcomes(q)
    requires var one := Prioritized(events, EventLeq); AssignedOf(p, one, TriggersOf(one), audit)
    requires var two := Prioritized(events + [dup], EventLeq); AssignedOf(q, two, TriggersOf(two), audit)
    ensures Group(p, key) == [] <==> Group(q, key) == []
    ensures Group(p, key) != [] ==>
              GroupOutcome(q, key) == Again(GroupOutcome(p, key), Earliest(EventsIn(Group(p, key))), dup,
                                            Joins(dup, TriggersOf(Prioritized(events, EventLeq)), audit, key))
  {
    var one, two := Prioritized(events, EventLeq), Prioritized(events + [dup], EventLeq);
    GroupsFiltered(events, e, dup, audit, p, q, key);
    var keep := InKey(TriggersOf(one), audit, key);
    FilterMembers(one, keep);
    assert |EventsIn(Group(p, key))| == |Group(p, key)| && |EventsIn(Group(q, key))| == |Group(q, key)|;
    if Group(p, key) != [] {
      LinksAlike(one, two, e, dup, audit, p, q, key);
      EarliestFiltered(one, two, dup, keep);
    } else {
      assert keep(dup) ==> e in Filter(one, keep);
    }
  }

  /** The same groups are shown, in the same order. */
  lemma SameKeys(events: seq<Event>, e: Event, dup: Event, audit: Name, p: seq<Assigned>, q: seq<Assigned>)
    requires DeliveredAgain(events, e, dup) && AllOutcomes(p) && AllOutcomes(q)
    requires var one := Prioritized(events, EventLeq); AssignedOf(p, one, TriggersOf(one), audit)
    requires var two := Prioritized(events + [dup], EventLeq); AssignedOf(q, two, TriggersOf(two), audit)
    ensures Prioritized(GroupKeys(p), KeyLeq) == Prioritized(GroupKeys(q), KeyLeq)
  {
    GroupKeysName(p);
    GroupKeysName(q);
    forall key
      ensures key in GroupKeys(p) <==> key in GroupKeys(q)
    {
      GroupThere(p, key);
      GroupThere(q, key);
      GroupDeliveredTwice(events, e, dup, audit, p, q, key);
    }
    DistinctMembers(GroupKeys(p), GroupKeys(q));
    KeyOrder();
    PriorityIgnoresInputOrder(GroupKeys(p), GroupKeys(q), KeyLeq);
  }

  lemma GroupThere(paired: seq<Assigned>, key: GroupKey)
    requires AllOutcomes(paired)
    ensures key in GroupKeys(paired) <==> Group(paired, key) != []
  {
    GroupKeysName(paired);
    FilterMembers(paired, (a: Assigned) => InGroup(a, key));
    if Group(paired, key) != [] {
      assert Group(paired, key)[0] in Group(paired, key);
    }
  }

  lemma KeyOrder()
    ensures Total(KeyLeq) && Transitive(KeyLeq)
    ensures forall a, b | KeyLeq(a, b) && KeyLeq(b, a) :: a == b
  {
  }

  lemma OutcomesOfAgain(events: seq<Event>, e: Event, dup: Event, audit: Name, p: seq<Assigned>, q: seq<Assigned>)
    requires DeliveredAgain(events, e, dup) && AllOutcomes(p) && AllOutcomes(q)
    requires var one := Prioritized(events, EventLeq); AssignedOf(p, one, TriggersOf(one), audit)
    requires var two := Prioritized(events + [dup], EventLeq); AssignedOf(q, two, TriggersOf(two), audit)
    ensures OutcomesAgain(Outcomes(p), Outcomes(q), p, dup, TriggersOf(Prioritized(events, EventLeq)), audit)
    ensures forall k, l | 0 <= k < l < |Outcomes(p)| :: KeyAt(Outcomes(p)[k]) != KeyAt(Outcomes(p)[l])
  {
    SameKeys(events, e, dup, audit, p, q);
    GroupOutcomesDefined(p);
    GroupKeysName(p);
    SortedMembers(GroupKeys(p), KeyLeq);
    var keys := Prioritized(GroupKeys(p), KeyLeq);
    forall k | 0 <= k < |keys|
      ensures KeyAt(Outcomes(p)[k]) == keys[k] && Group(p, keys[k]) != []
      ensures Outcomes(q)[k] == Again(Outcomes(p)[k], Earliest(EventsIn(Group(p, keys[k]))), dup,
                                      Joins(dup, TriggersOf(Prioritized(events, EventLeq)), audit, keys[k]))
    {
      assert keys[k] in keys;
      GroupDeliveredTwice(events, e, dup, audit, p, q, keys[k]);
    }
  }

  lemma OneGroupChanges(before: seq<PairedOutcome>, after: seq<PairedOutcome>, p: seq<Assigned>, dup: Event,
                        triggers: seq<Event>, audit: Name)
    requires OutcomesAgain(before, after, p, dup, triggers, audit)
    requires forall k, l | 0 <= k < l < |before| :: KeyAt(before[k]) != KeyAt(before[l])
    ensures forall k, l | 0 <= k < |before| && 0 <= l < |before| && before[k] != after[k] && before[l] != after[l] :: k == l
  {
    forall k, l | 0 <= k < |before| && 0 <= l < |before| && before[k] != after[k] && before[l] != after[l]
      ensures k == l
    {
      assert Joins(dup, triggers, audit, KeyAt(before[k])) && Joins(dup, triggers, audit, KeyAt(before[l]));
      assert KeyAt(before[k]) == KeyAt(before[l]);
    }
  }

  lemma EarliestSame(a: seq<Event>, b: seq<Event>)
    requires a != [] && b != [] && DistinctIds(b) && forall x :: x in b <==> x in a
    ensures Earliest(a) == Earliest(b)
  {
    EventOrder();
    EarliestIsLeast(a);
    EarliestIsLeast(b);
  }

  lemma KeepsTwin(e: Event, dup: Event, triggers: seq<Event>, audit: Name, key: GroupKey)
    requires Same(e, dup)
    ensures InKey(triggers, audit, key)(e) == InKey(triggers, audit, key)(dup)
  {
    forall x | x in triggers
      ensures HasTwin(x, triggers)
    {
      assert Same(x, x);
    }
    PairSimilar(e, dup, triggers, triggers, audit);
  }

  lemma SameKeep(s: seq<Event>, t: seq<Event>, audit: Name, key: GroupKey)
    requires Similar(s, t)
    ensures forall x :: InKey(s, audit, key)(x) == InKey(t, audit, key)(x)
  {
    forall x: Event
      ensures InKey(s, audit, key)(x) == InKey(t, audit, key)(x)
    {
      assert Same(x, x);
      PairSimilar(x, x, s, t, audit);
    }
  }

  /** A group is linked by audit with the repeat exactly when it is without. */
  lemma LinksAlike(one: seq<Event>, two: seq<Event>, e: Event, dup: Event, audit: Name, p: seq<Assigned>,
                   q: seq<Assigned>, key: GroupKey)
    requires Similar(one, two) && AllOutcomes(p) && AllOutcomes(q)
    requires AssignedOf(p, one, TriggersOf(one), audit) && AssignedOf(q, two, TriggersOf(two), audit)
    ensures (exists a | a in Group(p, key) :: a.link == ByAudit) <==> exists a | a in Group(q, key) :: a.link == ByAudit
  {
    GroupLinksWithin(one, two, audit, p, q, key);
    GroupLinksWithin(two, one, audit, q, p, key);
  }

  lemma GroupLinksWithin(one: seq<Event>, two: seq<Event>, audit: Name, p: seq<Assigned>, q: seq<Assigned>, key: GroupKey)
    requires Similar(one, two) && AllOutcomes(p) && AllOutcomes(q)
    requires AssignedOf(p, one, TriggersOf(one), audit) && AssignedOf(q, two, TriggersOf(two), audit)
    ensures (exists a | a in Group(p, key) :: a.link == ByAudit) ==> exists a | a in Group(q, key) :: a.link == ByAudit
  {
    var inGroup := (a: Assigned) => InGroup(a, key);
    FilterMembers(p, inGroup);
    FilterMembers(q, inGroup);
    if a :| a in Group(p, key) && a.link == ByAudit {
      PairedSimilar(one, two, audit, p, q, a);
      var b :| b in q && Same(a.event, b.event) && a.link == b.link;
      assert b in Group(q, key);
    }
  }

  // What can change, at an input.

  /** The record these events define, with what it was paired from. */
  lemma DeviceExists(mac: Name, site: Option<Name>, events: seq<Event>, audit: Name)
    returns (d: DeviceDeployment, p: seq<Assigned>, u: seq<Uncertain>)
    ensures DeviceOf(d, mac, site, events, audit, p, u)
  {
    var triggers := TriggersOf(events);
    var certain, doubted := Filter(events, Assigns(triggers, audit)), Filter(events, Doubts(triggers, audit));
    FilterMembers(events, Assigns(triggers, audit));
    FilterMembers(events, Doubts(triggers, audit));
    p := seq(|certain|, i requires 0 <= i < |certain| => Assigned(certain[i], LinkOf(certain[i], triggers, audit)));
    u := seq(|doubted|, i requires 0 <= i < |doubted| => Uncertain(doubted[i], DoubtOf(doubted[i], triggers, audit)));
    forall i | 0 <= i < |certain|
      ensures IsAssigned(certain[i], triggers, audit)
    {
      assert certain[i] in certain;
    }
    forall i | 0 <= i < |doubted|
      ensures IsUncertain(doubted[i], triggers, audit)
    {
      assert doubted[i] in doubted;
    }
    var own := OwnTriggers(events, audit);
    d := DeviceDeployment(
      mac, site,
      if Shown(own).None? then None else Some(Shown(own).value.eventType),
      if Shown(own).Some? && Shown(own).value.timed then Some(Shown(own).value.second) else None,
      Outcomes(p), Judge(own != [], p, u));
  }

  function LinkOf(e: Event, triggers: seq<Event>, audit: Name): Link {
    if Pair(e, triggers, audit).Assign? then Pair(e, triggers, audit).link else ByTime
  }

  function DoubtOf(e: Event, triggers: seq<Event>, audit: Name): Doubt {
    if Pair(e, triggers, audit).Unsure? then Pair(e, triggers, audit).doubt else ByOtherTrigger
  }

  /** These records of one device differ by the repeat of one receipt alone. */
  ghost predicate Repeated(a: DeviceDeployment, b: DeviceDeployment, events: seq<Event>, e: Event, dup: Event, audit: Name) {
    && DeliveredAgain(events, e, dup)
    && PairedAs(a, a.mac, a.site, Prioritized(events, EventLeq), audit)
    && PairedAs(b, a.mac, a.site, Prioritized(events + [dup], EventLeq), audit)
  }

  lemma EventsApart()
    ensures NameLeq(Name("1"), Name("2")) && !NameLeq(Name("2"), Name("1"))
    ensures NameLeq(Name("2"), Name("3")) && !NameLeq(Name("3"), Name("2"))
  {
    assert "1"[0] == '1' && "2"[0] == '2' && "3"[0] == '3';
  }

  /** The trigger shown is the latest of the audit's provider-timed triggers. */
  lemma ShownIsLatest(events: seq<Event>, audit: Name, t: Event)
    requires DistinctIds(events) && t in events && t.timed && !IsOutcome(t) && t.auditId == Some(audit)
    ensures var shown := Shown(OwnTriggers(Prioritized(events, EventLeq), audit));
            shown.Some? && shown.value in events && EventLeq(t, shown.value)
  {
    var own := OwnTriggers(Prioritized(events, EventLeq), audit);
    SortedEvents(events);
    FilterMembers(Prioritized(events, EventLeq), (x: Event) => !IsOutcome(x) && x.auditId == Some(audit));
    FilterMembers(own, (x: Event) => x.timed);
    assert t in Timed(own);
    LatestIsGreatest(Timed(own));
  }

  /** An access point's user and radio-management triggers of one audit in one second: repeating the first shows its type
      in place of the second's. */
  lemma RepeatCanChangeShownType()
    returns (a: DeviceDeployment, b: DeviceDeployment, events: seq<Event>, e: Event, dup: Event)
    ensures Repeated(a, b, events, e, dup, Name("a"))
    ensures a.trigger == Some(RrmTrigger) && b.trigger == Some(UserTrigger(AP))
  {
    var audit := Name("a");
    EventsApart();
    e := Event(Name("1"), 0, true, UserTrigger(AP), Some(audit));
    var later := Event(Name("2"), 0, true, RrmTrigger, Some(audit));
    dup := e.(id := Name("3"));
    events := [e, later];
    assert e in events && later in events && forall x | x in events :: x == e || x == later;
    assert DeliveredAgain(events, e, dup);
    ShownIsLatest(events, audit, later);
    TriggerAgain(events, e, dup, audit);
    var p, q, u, v;
    a, p, u := DeviceExists(audit, None, Prioritized(events, EventLeq), audit);
    b, q, v := DeviceExists(audit, None, Prioritized(events + [dup], EventLeq), audit);
  }

  /** A group's first event is one of the events, an outcome of its kind and second, and no event that joins the group
      comes before it. */
  lemma EarliestInGroup(events: seq<Event>, audit: Name, p: seq<Assigned>, key: GroupKey, x: Event)
    requires AssignedOf(p, events, TriggersOf(events), audit) && AllOutcomes(p)
    requires Group(p, key) != [] || (x in events && Joins(x, TriggersOf(events), audit, key))
    ensures Group(p, key) != []
    ensures var first := Earliest(EventsIn(Group(p, key)));
            && first in events && IsOutcome(first) && first.eventType.kind == key.kind && first.second == key.second
            && (x in events && Joins(x, TriggersOf(events), audit, key) ==> EventLeq(first, x))
  {
    var keep := InKey(TriggersOf(events), audit, key);
    GroupFiltered(events, audit, p, key);
    FilterMembers(events, keep);
    if x in events && keep(x) {
      assert x in EventsIn(Group(p, key));
    }
    EarliestIsLeast(EventsIn(Group(p, key)));
  }

  /** An outcome linked to a trigger of the audit, both provider-timed and in order, is assigned. */
  lemma LinkedJoins(trigger: Event, x: Event, triggers: seq<Event>, audit: Name)
    requires trigger in triggers && trigger.timed && x.timed && trigger.second <= x.second && IsOutcome(x)
    requires trigger.auditId == Some(audit) && x.auditId == Some(audit)
    ensures Joins(x, triggers, audit, GroupKey(x.second, x.eventType.kind))
  {
    assert Linked(trigger, x) && Confirms(trigger, x);
  }

  /** A trigger, and configured outcomes of two families in one later second. */
  const TRIGGERED: Event := Event(Name("0"), -1, true, UserTrigger(AP), Some(Name("a")))
  const CONFIGURED_AP: Event := Event(Name("2"), 0, true, Outcome(AP, Configured), Some(Name("a")))
  const CONFIGURED_SW: Event := Event(Name("3"), 0, true, Outcome(SW, Configured), Some(Name("a")))
  const TWO_FAMILIES: seq<Event> := [TRIGGERED, CONFIGURED_AP, CONFIGURED_SW]
  const REPEATED_SW: Event := CONFIGURED_SW.(id := Name("1"))

  lemma TwoFamilies()
    ensures DeliveredAgain(TWO_FAMILIES, CONFIGURED_SW, REPEATED_SW)
    ensures !EventLeq(CONFIGURED_AP, REPEATED_SW) && !EventLeq(CONFIGURED_SW, CONFIGURED_AP)
    ensures forall x :: x in TWO_FAMILIES <==> x == TRIGGERED || x == CONFIGURED_AP || x == CONFIGURED_SW
  {
    EventsApart();
    assert "0"[0] == '0' && "1"[0] == '1' && "2"[0] == '2' && "3"[0] == '3';
    assert TWO_FAMILIES[0] == TRIGGERED && TWO_FAMILIES[1] == CONFIGURED_AP && TWO_FAMILIES[2] == CONFIGURED_SW;
  }

  /** The access point's outcome comes first in their group, which the repeat joins ahead of it. */
  lemma GroupOfTwo(p: seq<Assigned>)
    requires var one := Prioritized(TWO_FAMILIES, EventLeq);
             AssignedOf(p, one, TriggersOf(one), Name("a")) && AllOutcomes(p)
    ensures var key := GroupKey(0, Configured);
            Group(p, key) != [] && Earliest(EventsIn(Group(p, key))) == CONFIGURED_AP
            && Joins(REPEATED_SW, TriggersOf(Prioritized(TWO_FAMILIES, EventLeq)), Name("a"), key)
  {
    var one := Prioritized(TWO_FAMILIES, EventLeq);
    TwoFamilies();
    SortedEvents(TWO_FAMILIES);
    FilterMembers(one, (x: Event) => !IsOutcome(x));
    assert TRIGGERED in TriggersOf(one);
    LinkedJoins(TRIGGERED, CONFIGURED_AP, TriggersOf(one), Name("a"));
    LinkedJoins(TRIGGERED, REPEATED_SW, TriggersOf(one), Name("a"));
    EarliestInGroup(one, Name("a"), p, GroupKey(0, Configured), CONFIGURED_AP);
  }

  /** Repeating the later outcome with a receipt that sorts ahead of the first shows its type for the group. */
  lemma RepeatCanChangeGroupType() returns (a: DeviceDeployment, b: DeviceDeployment, k: nat)
    ensures Repeated(a, b, TWO_FAMILIES, CONFIGURED_SW, REPEATED_SW, Name("a")) && k < |a.outcomes| == |b.outcomes|
    ensures a.outcomes[k].eventType == Outcome(AP, Configured) && b.outcomes[k].eventType == Outcome(SW, Configured)
  {
    var one, two := Prioritized(TWO_FAMILIES, EventLeq), Prioritized(TWO_FAMILIES + [REPEATED_SW], EventLeq);
    var p, q, u, v;
    TwoFamilies();
    a, p, u := DeviceExists(Name("a"), None, one, Name("a"));
    b, q, v := DeviceExists(Name("a"), None, two, Name("a"));
    GroupOfTwo(p);
    OutcomesOfAgain(TWO_FAMILIES, CONFIGURED_SW, REPEATED_SW, Name("a"), p, q);
    k := OutcomeOf(p, GroupKey(0, Configured));
  }

  lemma OutcomeOf(p: seq<Assigned>, key: GroupKey) returns (k: nat)
    requires AllOutcomes(p) && Group(p, key) != []
    ensures k < |Outcomes(p)| && Outcomes(p)[k] == GroupOutcome(p, key)
  {
    GroupThere(p, key);
    SortedMembers(GroupKeys(p), KeyLeq);
    var keys := Prioritized(GroupKeys(p), KeyLeq);
    assert key in keys;
    k :| 0 <= k < |keys| && keys[k] == key;
  }

  lemma OutcomeAt(p: seq<Assigned>, k: nat)
    requires AllOutcomes(p) && k < |Outcomes(p)|
    ensures var key := KeyAt(Outcomes(p)[k]); Group(p, key) != [] && Outcomes(p)[k] == GroupOutcome(p, key)
  {
    GroupOutcomesDefined(p);
    assert Prioritized(GroupKeys(p), KeyLeq)[k] in Prioritized(GroupKeys(p), KeyLeq);
  }

  /** Where every outcome is of one device family, as a device's own are, no group is ever shown as another type: a
      repeat then only counts. */
  lemma OneFamilyKeepsTypes(events: seq<Event>, e: Event, dup: Event, audit: Name, p: seq<Assigned>, q: seq<Assigned>,
                            family: Family, k: nat)
    requires DeliveredAgain(events, e, dup) && AllOutcomes(p) && AllOutcomes(q)
    requires var one := Prioritized(events, EventLeq); AssignedOf(p, one, TriggersOf(one), audit)
    requires var two := Prioritized(events + [dup], EventLeq); AssignedOf(q, two, TriggersOf(two), audit)
    requires forall x | x in events && IsOutcome(x) :: x.eventType.family == family
    requires k < |Outcomes(p)|
    ensures |Outcomes(q)| == |Outcomes(p)|
    ensures var before, after := Outcomes(p)[k], Outcomes(q)[k];
            after == before || after == before.(count := before.count + 1)
  {
    var one, key := Prioritized(events, EventLeq), KeyAt(Outcomes(p)[k]);
    SortedEvents(events);
    OutcomesOfAgain(events, e, dup, audit, p, q);
    OutcomeAt(p, k);
    EarliestInGroup(one, audit, p, key, e);
  }
}
