/** Numbering plug-in obligations: every planned obligation gets one ledger id, and monitoring obligations of one
    metric on one target share the first one's under the strictest policy. */
module Numbering {
  import opened Contracts
  import opened Ordering
  import opened Obligations
  import opened RowResolver

  /** One obligation with the plug-in that planned it. */
  datatype Planned = Planned(plugin: Name, obligation: Obligation)

  type CheckKey = (Target, Option<Name>)

  function Key(o: Obligation): CheckKey {
    (o.target, o.metric)
  }

  /** Two monitoring obligations the ledger folds into one. */
  predicate SameCheck(a: Obligation, b: Obligation) {
    a.kind == MonitoringKind && b.kind == MonitoringKind && Key(a) == Key(b)
  }

  function Strictness(policy: Option<EmptyPolicy>): int {
    match policy
    case None => -1
    case Some(NotExercisedPolicy) => 0
    case Some(IncompletePolicy) => 1
  }

  function Stricter(a: Option<EmptyPolicy>, b: Option<EmptyPolicy>): Option<EmptyPolicy> {
    if Strictness(a) < Strictness(b) then b else a
  }

  /** The obligations numbered so far, every obligation as planned under its number, where each check is, and each
      plug-in's own ids on ledger ids. */
  datatype State = State(
    obligations: seq<Obligation>,
    claims: seq<Claim>,
    monitored: map<CheckKey, nat>,
    ids: map<Name, map<nat, nat>>)

  function PluginIds(ids: map<Name, map<nat, nat>>, plugin: Name): map<nat, nat> {
    if plugin in ids then ids[plugin] else map[]
  }

  // What numbering keeps, one conjunct at a time.

  ghost predicate Consecutive(obligations: seq<Obligation>) {
    forall i | 0 <= i < |obligations| :: obligations[i].id == i + 1
  }

  /** The claims are the planned obligations, in order. */
  ghost predicate ClaimsOf(claims: seq<Claim>, flat: seq<Planned>) {
    |claims| == |flat| && forall j | 0 <= j < |flat| :: claims[j].obligation == flat[j].obligation
  }

  /** The ledger's obligation is the planned one: only a folded check differs, in who planned it first. */
  ghost predicate StandsFor(stored: Obligation, planned: Obligation) {
    && stored.kind == planned.kind && Key(stored) == Key(planned)
    && (planned.kind != MonitoringKind ==> stored == planned.(id := stored.id))
  }

  ghost predicate Standing(obligations: seq<Obligation>, claims: seq<Claim>, base: nat) {
    forall j | 0 <= j < |claims| ::
      base < claims[j].id <= |obligations| && StandsFor(obligations[claims[j].id - 1], claims[j].obligation)
  }

  /** No earlier plan, and nothing earlier in its own, asked for the same check. */
  predicate IsFirst(claims: seq<Claim>, j: nat)
    requires j < |claims|
  {
    forall k {:trigger SameCheck(claims[k].obligation, claims[j].obligation)} | 0 <= k < j ::
      !SameCheck(claims[k].obligation, claims[j].obligation)
  }

  function FirstsBefore(claims: seq<Claim>, n: nat): nat
    requires n <= |claims|
  {
    if n == 0 then 0 else FirstsBefore(claims, n - 1) + (if IsFirst(claims, n - 1) then 1 else 0)
  }

  /** Whatever is not folded takes the next number, in the order planned, and nothing else takes one. */
  ghost predicate CountedUp(total: nat, claims: seq<Claim>, base: nat) {
    && total == base + FirstsBefore(claims, |claims|)
    && forall j {:trigger NextNumber(claims, j, base)} | 0 <= j < |claims| :: NextNumber(claims, j, base)
  }

  predicate NextNumber(claims: seq<Claim>, j: nat, base: nat)
    requires j < |claims|
  {
    IsFirst(claims, j) ==> claims[j].id == base + FirstsBefore(claims, j) + 1
  }

  /** Every numbered obligation is the first planned under its number, with its policy possibly made stricter. */
  ghost predicate FromPlans(obligations: seq<Obligation>, claims: seq<Claim>, base: nat) {
    forall i {:trigger FromPlan(obligations[i], claims)} | base <= i < |obligations| :: FromPlan(obligations[i], claims)
  }

  ghost predicate FromPlan(o: Obligation, claims: seq<Claim>) {
    exists j :: 0 <= j < |claims| && StoredAs(o, claims, j)
  }

  predicate StoredAs(o: Obligation, claims: seq<Claim>, j: nat)
    requires j < |claims|
  {
    && claims[j].id == o.id && IsFirst(claims, j)
    && o == claims[j].obligation.(id := o.id, policy := o.policy)
  }

  /** Two planned obligations share a number exactly when they are the same check. */
  ghost predicate Shared(claims: seq<Claim>) {
    forall j, k | 0 <= j < k < |claims| ::
      claims[j].id == claims[k].id <==> SameCheck(claims[j].obligation, claims[k].obligation)
  }

  ghost predicate HasStrict(claims: seq<Claim>, id: nat) {
    exists j :: 0 <= j < |claims| && claims[j].id == id && claims[j].obligation.policy == Some(IncompletePolicy)
  }

  /** A numbered check carries the strictest policy any plug-in planned for it. */
  ghost predicate Strictest(obligations: seq<Obligation>, claims: seq<Claim>, base: nat) {
    forall i {:trigger HasStrict(claims, obligations[i].id)} | base <= i < |obligations| ::
      && (obligations[i].kind == MonitoringKind <==> obligations[i].policy.Some?)
      && (obligations[i].policy == Some(IncompletePolicy) <==> HasStrict(claims, obligations[i].id))
  }

  ghost predicate Monitored(monitored: map<CheckKey, nat>, claims: seq<Claim>) {
    && (forall key {:trigger MonitoredAt(monitored, claims, key)} | key in monitored ::
          MonitoredAt(monitored, claims, key))
    && (forall j | 0 <= j < |claims| && claims[j].obligation.kind == MonitoringKind ::
          Key(claims[j].obligation) in monitored && monitored[Key(claims[j].obligation)] + 1 == claims[j].id)
  }

  ghost predicate MonitoredAt(monitored: map<CheckKey, nat>, claims: seq<Claim>, key: CheckKey)
    requires key in monitored
  {
    exists j :: 0 <= j < |claims| && claims[j].obligation.kind == MonitoringKind && Key(claims[j].obligation) == key
                && claims[j].id == monitored[key] + 1
  }

  /** Each plug-in's own id maps to the number of what it planned under that id. */
  ghost predicate Mapped(ids: map<Name, map<nat, nat>>, flat: seq<Planned>, claims: seq<Claim>)
    requires |claims| == |flat|
  {
    && (forall j | 0 <= j < |flat| ::
          flat[j].obligation.id in PluginIds(ids, flat[j].plugin)
          && PluginIds(ids, flat[j].plugin)[flat[j].obligation.id] == claims[j].id)
    && (forall plugin, local {:trigger PlannedAs(flat, plugin, local)} | local in PluginIds(ids, plugin) ::
          PlannedAs(flat, plugin, local))
  }

  ghost predicate PlannedAs(flat: seq<Planned>, plugin: Name, local: nat) {
    exists j :: 0 <= j < |flat| && flat[j].plugin == plugin && flat[j].obligation.id == local
  }

  ghost predicate Numbered(s: State, base: seq<Obligation>, flat: seq<Planned>) {
    && base <= s.obligations && Consecutive(s.obligations)
    && ClaimsOf(s.claims, flat)
    && Standing(s.obligations, s.claims, |base|)
    && FromPlans(s.obligations, s.claims, |base|)
    && CountedUp(|s.obligations|, s.claims, |base|)
    && Shared(s.claims)
    && Strictest(s.obligations, s.claims, |base|)
    && Monitored(s.monitored, s.claims)
    && Mapped(s.ids, flat, s.claims)
  }

  /** The index of the check this obligation folds into, if it does. */
  function FoldsInto(s: State, o: Obligation): Option<nat> {
    if o.kind == MonitoringKind && Key(o) in s.monitored then Some(s.monitored[Key(o)]) else None
  }

  function Folded(obligations: seq<Obligation>, index: nat, o: Obligation): seq<Obligation>
    requires index < |obligations|
  {
    obligations[index := obligations[index].(policy := Stricter(obligations[index].policy, o.policy))]
  }

  // Folding keeps every conjunct.

  lemma FoldTarget(s: State, base: nat, o: Obligation, index: nat) returns (w: nat)
    requires Standing(s.obligations, s.claims, base) && Monitored(s.monitored, s.claims)
    requires FoldsInto(s, o) == Some(index)
    ensures w < |s.claims| && s.claims[w].id == index + 1 && SameCheck(s.claims[w].obligation, o)
    ensures base <= index < |s.obligations| && s.obligations[index].kind == MonitoringKind
    ensures Key(s.obligations[index]) == Key(o)
  {
    assert MonitoredAt(s.monitored, s.claims, Key(o));
    w :| 0 <= w < |s.claims| && s.claims[w].obligation.kind == MonitoringKind
         && Key(s.claims[w].obligation) == Key(o) && s.claims[w].id == index + 1;
    assert StandsFor(s.obligations[s.claims[w].id - 1], s.claims[w].obligation);
  }

  lemma FoldShared(claims: seq<Claim>, monitored: map<CheckKey, nat>, o: Obligation, index: nat, w: nat)
    requires Shared(claims) && Monitored(monitored, claims)
    requires o.kind == MonitoringKind && Key(o) in monitored && monitored[Key(o)] == index
    requires w < |claims| && claims[w].id == index + 1 && SameCheck(claims[w].obligation, o)
    ensures Shared(claims + [Claim(index + 1, o)])
  {
    var all := claims + [Claim(index + 1, o)];
    forall j | 0 <= j < |claims|
      ensures claims[j].id == index + 1 <==> SameCheck(claims[j].obligation, o)
    {
      if claims[j].id == index + 1 && j != w {
        assert SameCheck(claims[j].obligation, claims[w].obligation)
            || SameCheck(claims[w].obligation, claims[j].obligation);
      }
    }
  }

  lemma HasStrictSnoc(claims: seq<Claim>, c: Claim, id: nat)
    ensures HasStrict(claims + [c], id)
        <==> HasStrict(claims, id) || (c.id == id && c.obligation.policy == Some(IncompletePolicy))
  {
    var all := claims + [c];
    if HasStrict(claims, id) {
      var j :| 0 <= j < |claims| && claims[j].id == id && claims[j].obligation.policy == Some(IncompletePolicy);
      assert all[j] == claims[j];
    }
    if c.id == id && c.obligation.policy == Some(IncompletePolicy) {
      assert all[|claims|] == c;
    }
  }

  lemma FoldStrictest(obligations: seq<Obligation>, claims: seq<Claim>, base: nat, o: Obligation, index: nat)
    requires Strictest(obligations, claims, base) && base <= index < |obligations| && Consecutive(obligations)
    requires obligations[index].kind == MonitoringKind && o.policy.Some?
    ensures Strictest(Folded(obligations, index, o), claims + [Claim(index + 1, o)], base)
  {
    var c := Claim(index + 1, o);
    var folded := Folded(obligations, index, o);
    forall i | base <= i < |folded|
      ensures folded[i].kind == MonitoringKind <==> folded[i].policy.Some?
      ensures folded[i].policy == Some(IncompletePolicy) <==> HasStrict(claims + [c], folded[i].id)
    {
      HasStrictSnoc(claims, c, obligations[i].id);
    }
  }

  lemma FromPlanSnoc(o: Obligation, claims: seq<Claim>, c: Claim)
    requires FromPlan(o, claims)
    ensures FromPlan(o, claims + [c])
  {
    var j :| 0 <= j < |claims| && StoredAs(o, claims, j);
    FirstSnoc(claims, c, j);
    assert StoredAs(o, claims + [c], j);
  }

  lemma FirstSnoc(claims: seq<Claim>, c: Claim, j: nat)
    requires j < |claims|
    ensures IsFirst(claims + [c], j) == IsFirst(claims, j)
  {
    assert forall k | 0 <= k <= j :: (claims + [c])[k] == claims[k];
  }

  lemma {:induction false} FirstsSnoc(claims: seq<Claim>, c: Claim, n: nat)
    requires n <= |claims|
    ensures FirstsBefore(claims + [c], n) == FirstsBefore(claims, n)
  {
    if n > 0 {
      FirstsSnoc(claims, c, n - 1);
      FirstSnoc(claims, c, n - 1);
    }
  }

  /** One more claim counts up by one when it is a first, which is then the last number, and not at all otherwise. */
  lemma CountedSnoc(total: nat, claims: seq<Claim>, base: nat, c: Claim)
    requires CountedUp(total, claims, base)
    requires IsFirst(claims + [c], |claims|) ==> c.id == total + 1
    ensures CountedUp(if IsFirst(claims + [c], |claims|) then total + 1 else total, claims + [c], base)
  {
    var all := claims + [c];
    FirstsSnoc(claims, c, |claims|);
    forall j | 0 <= j < |all|
      ensures NextNumber(all, j, base)
    {
      FirstsSnoc(claims, c, j);
      if j < |claims| {
        FirstSnoc(claims, c, j);
        assert NextNumber(claims, j, base);
      }
    }
  }

  lemma FoldFromPlans(obligations: seq<Obligation>, claims: seq<Claim>, base: nat, o: Obligation, index: nat)
    requires FromPlans(obligations, claims, base) && base <= index < |obligations|
    ensures FromPlans(Folded(obligations, index, o), claims + [Claim(index + 1, o)], base)
  {
    var folded := Folded(obligations, index, o);
    forall i | base <= i < |folded|
      ensures FromPlan(folded[i], claims + [Claim(index + 1, o)])
    {
      assert FromPlan(obligations[i], claims);
      var j :| 0 <= j < |claims| && StoredAs(obligations[i], claims, j);
      assert StoredAs(folded[i], claims, j);
      FromPlanSnoc(folded[i], claims, Claim(index + 1, o));
    }
  }

  lemma MonitoredSnoc(monitored: map<CheckKey, nat>, claims: seq<Claim>, c: Claim)
    requires Monitored(monitored, claims)
    requires c.obligation.kind == MonitoringKind
         ==> Key(c.obligation) in monitored && monitored[Key(c.obligation)] + 1 == c.id
    ensures Monitored(monitored, claims + [c])
  {
    forall key | key in monitored
      ensures MonitoredAt(monitored, claims + [c], key)
    {
      assert MonitoredAt(monitored, claims, key);
      var j :| 0 <= j < |claims| && claims[j].obligation.kind == MonitoringKind && Key(claims[j].obligation) == key
               && claims[j].id == monitored[key] + 1;
      assert (claims + [c])[j] == claims[j];
    }
  }

  lemma MonitoredNew(monitored: map<CheckKey, nat>, claims: seq<Claim>, c: Claim)
    requires Monitored(monitored, claims) && c.obligation.kind == MonitoringKind && c.id > 0
    requires Key(c.obligation) !in monitored
    ensures Monitored(monitored[Key(c.obligation) := c.id - 1], claims + [c])
  {
    var next := monitored[Key(c.obligation) := c.id - 1];
    forall key | key in next
      ensures MonitoredAt(next, claims + [c], key)
    {
      if key in monitored {
        assert MonitoredAt(monitored, claims, key);
        var j :| 0 <= j < |claims| && claims[j].obligation.kind == MonitoringKind && Key(claims[j].obligation) == key
                 && claims[j].id == monitored[key] + 1;
        assert (claims + [c])[j] == claims[j];
      } else {
        assert (claims + [c])[|claims|] == c;
      }
    }
  }

  lemma MappedSnoc(ids: map<Name, map<nat, nat>>, flat: seq<Planned>, claims: seq<Claim>, p: Planned, c: Claim)
    requires |claims| == |flat| && Mapped(ids, flat, claims)
    requires !PlannedAs(flat, p.plugin, p.obligation.id)
    ensures Mapped(ids[p.plugin := PluginIds(ids, p.plugin)[p.obligation.id := c.id]], flat + [p], claims + [c])
  {
    var next := ids[p.plugin := PluginIds(ids, p.plugin)[p.obligation.id := c.id]];
    var all := flat + [p];
    forall j | 0 <= j < |all|
      ensures all[j].obligation.id in PluginIds(next, all[j].plugin)
      ensures PluginIds(next, all[j].plugin)[all[j].obligation.id] == (claims + [c])[j].id
    {
      if j < |flat| {
        assert all[j] == flat[j];
        assert PlannedAs(flat, flat[j].plugin, flat[j].obligation.id);
      }
    }
    forall plugin, local | local in PluginIds(next, plugin)
      ensures PlannedAs(all, plugin, local)
    {
      if plugin == p.plugin && local == p.obligation.id {
        assert all[|flat|] == p;
      } else {
        assert local in PluginIds(ids, plugin);
        assert PlannedAs(flat, plugin, local);
        var j :| 0 <= j < |flat| && flat[j].plugin == plugin && flat[j].obligation.id == local;
        assert all[j] == flat[j];
      }
    }
  }

  lemma AppendShared(claims: seq<Claim>, monitored: map<CheckKey, nat>, c: Claim)
    requires Shared(claims) && Monitored(monitored, claims)
    requires forall j | 0 <= j < |claims| :: claims[j].id < c.id
    requires c.obligation.kind == MonitoringKind ==> Key(c.obligation) !in monitored
    ensures Shared(claims + [c])
  {
  }

  lemma NotFirst(claims: seq<Claim>, c: Claim, w: nat)
    requires w < |claims| && SameCheck(claims[w].obligation, c.obligation)
    ensures !IsFirst(claims + [c], |claims|)
  {
    var all := claims + [c];
    assert SameCheck(all[w].obligation, all[|claims|].obligation);
  }

  lemma NewIsFirst(claims: seq<Claim>, monitored: map<CheckKey, nat>, c: Claim)
    requires Monitored(monitored, claims)
    requires c.obligation.kind == MonitoringKind ==> Key(c.obligation) !in monitored
    ensures IsFirst(claims + [c], |claims|)
  {
  }

  lemma AppendStrictest(obligations: seq<Obligation>, claims: seq<Claim>, base: nat, o: Obligation)
    requires Strictest(obligations, claims, base) && base <= |obligations|
    requires Standing(obligations, claims, base) && Consecutive(obligations)
    requires o.kind == MonitoringKind <==> o.policy.Some?
    ensures Strictest(obligations + [o.(id := |obligations| + 1)], claims + [Claim(|obligations| + 1, o)], base)
  {
    var c := Claim(|obligations| + 1, o);
    var all := obligations + [o.(id := |obligations| + 1)];
    assert !HasStrict(claims, |obligations| + 1);
    forall i | base <= i < |all|
      ensures all[i].kind == MonitoringKind <==> all[i].policy.Some?
      ensures all[i].policy == Some(IncompletePolicy) <==> HasStrict(claims + [c], all[i].id)
    {
      HasStrictSnoc(claims, c, all[i].id);
      if i < |obligations| {
        assert HasStrict(claims, obligations[i].id) <==> obligations[i].policy == Some(IncompletePolicy);
      }
    }
  }

  lemma AppendFromPlans(obligations: seq<Obligation>, claims: seq<Claim>, base: nat, o: Obligation)
    requires FromPlans(obligations, claims, base) && base <= |obligations|
    requires IsFirst(claims + [Claim(|obligations| + 1, o)], |claims|)
    ensures FromPlans(obligations + [o.(id := |obligations| + 1)], claims + [Claim(|obligations| + 1, o)], base)
  {
    var all := obligations + [o.(id := |obligations| + 1)];
    var c := Claim(|obligations| + 1, o);
    forall i | base <= i < |all|
      ensures FromPlan(all[i], claims + [c])
    {
      if i < |obligations| {
        assert FromPlan(obligations[i], claims);
        FromPlanSnoc(obligations[i], claims, c);
      } else {
        assert StoredAs(all[i], claims + [c], |claims|);
      }
    }
  }

  // Numbering one obligation.

  function Recorded(s: State, p: Planned, id: nat, obligations: seq<Obligation>, monitored: map<CheckKey, nat>): State {
    State(obligations, s.claims + [Claim(id, p.obligation)], monitored,
          s.ids[p.plugin := PluginIds(s.ids, p.plugin)[p.obligation.id := id]])
  }

  function Noted(monitored: map<CheckKey, nat>, o: Obligation, index: nat): map<CheckKey, nat> {
    if o.kind == MonitoringKind then monitored[Key(o) := index] else monitored
  }

  /** The state once the obligation is folded into the check at this index. */
  function FoldedState(s: State, p: Planned, index: nat): State
    requires index < |s.obligations|
  {
    Recorded(s, p, index + 1, Folded(s.obligations, index, p.obligation), s.monitored)
  }

  /** The state once the obligation has the next number. */
  function AppendedState(s: State, p: Planned): State {
    var n := |s.obligations|;
    Recorded(s, p, n + 1, s.obligations + [p.obligation.(id := n + 1)], Noted(s.monitored, p.obligation, n))
  }

  lemma FoldStanding(obligations: seq<Obligation>, claims: seq<Claim>, base: nat, o: Obligation, index: nat)
    requires Standing(obligations, claims, base) && base <= index < |obligations|
    requires obligations[index].kind == o.kind == MonitoringKind && Key(obligations[index]) == Key(o)
    requires Consecutive(obligations)
    ensures Standing(Folded(obligations, index, o), claims + [Claim(index + 1, o)], base)
    ensures Consecutive(Folded(obligations, index, o))
  {
  }

  lemma AppendStanding(obligations: seq<Obligation>, claims: seq<Claim>, base: nat, o: Obligation)
    requires Standing(obligations, claims, base) && Consecutive(obligations) && base <= |obligations|
    ensures Standing(obligations + [o.(id := |obligations| + 1)], claims + [Claim(|obligations| + 1, o)], base)
    ensures Consecutive(obligations + [o.(id := |obligations| + 1)])
  {
  }

  lemma ClaimsOfSnoc(claims: seq<Claim>, flat: seq<Planned>, c: Claim, p: Planned)
    requires ClaimsOf(claims, flat) && c.obligation == p.obligation
    ensures ClaimsOf(claims + [c], flat + [p])
  {
  }

  lemma FoldKeepsPrefix(base: seq<Obligation>, obligations: seq<Obligation>, index: nat, o: Obligation)
    requires base <= obligations && |base| <= index < |obligations|
    ensures base <= Folded(obligations, index, o)
  {
  }

  lemma FoldNumbered(s: State, base: seq<Obligation>, flat: seq<Planned>, p: Planned, index: nat)
    requires Numbered(s, base, flat) && ValidObligation(p.obligation)
    requires !PlannedAs(flat, p.plugin, p.obligation.id)
    requires FoldsInto(s, p.obligation) == Some(index)
    ensures index < |s.obligations| && Numbered(FoldedState(s, p, index), base, flat + [p])
  {
    var o := p.obligation;
    var w := FoldTarget(s, |base|, o, index);
    var next := FoldedState(s, p, index);
    assert next.obligations == Folded(s.obligations, index, o) && next.claims == s.claims + [Claim(index + 1, o)];
    assert next.monitored == s.monitored;
    FoldKeepsPrefix(base, s.obligations, index, o);
    ClaimsOfSnoc(s.claims, flat, Claim(index + 1, o), p);
    FoldStanding(s.obligations, s.claims, |base|, o, index);
    FoldShared(s.claims, s.monitored, o, index, w);
    FoldStrictest(s.obligations, s.claims, |base|, o, index);
    FoldFromPlans(s.obligations, s.claims, |base|, o, index);
    NotFirst(s.claims, Claim(index + 1, o), w);
    CountedSnoc(|s.obligations|, s.claims, |base|, Claim(index + 1, o));
    MonitoredSnoc(s.monitored, s.claims, Claim(index + 1, o));
    MappedSnoc(s.ids, flat, s.claims, p, Claim(index + 1, o));
  }

  lemma AppendNumbered(s: State, base: seq<Obligation>, flat: seq<Planned>, p: Planned)
    requires Numbered(s, base, flat) && ValidObligation(p.obligation)
    requires !PlannedAs(flat, p.plugin, p.obligation.id)
    requires FoldsInto(s, p.obligation) == None
    ensures Numbered(AppendedState(s, p), base, flat + [p])
  {
    var o := p.obligation;
    var c := Claim(|s.obligations| + 1, o);
    var next := AppendedState(s, p);
    assert next.obligations == s.obligations + [o.(id := |s.obligations| + 1)] && next.claims == s.claims + [c];
    ClaimsOfSnoc(s.claims, flat, c, p);
    AppendStanding(s.obligations, s.claims, |base|, o);
    AppendShared(s.claims, s.monitored, c);
    AppendStrictest(s.obligations, s.claims, |base|, o);
    NewIsFirst(s.claims, s.monitored, c);
    AppendFromPlans(s.obligations, s.claims, |base|, o);
    CountedSnoc(|s.obligations|, s.claims, |base|, c);
    if o.kind == MonitoringKind {
      MonitoredNew(s.monitored, s.claims, c);
    } else {
      MonitoredSnoc(s.monitored, s.claims, c);
    }
    MappedSnoc(s.ids, flat, s.claims, p, c);
  }

  /** Fold the obligation into the check that has its key, or give it the next number. */
  method NumberOne(s: State, ghost base: seq<Obligation>, ghost flat: seq<Planned>, p: Planned) returns (next: State)
    requires Numbered(s, base, flat) && ValidObligation(p.obligation)
    requires !PlannedAs(flat, p.plugin, p.obligation.id)
    ensures Numbered(next, base, flat + [p])
    ensures next.ids.Keys == s.ids.Keys + {p.plugin}
  {
    var folds := FoldsInto(s, p.obligation);
    if folds.Some? {
      FoldNumbered(s, base, flat, p, folds.value);
      next := FoldedState(s, p, folds.value);
    } else {
      AppendNumbered(s, base, flat, p);
      next := AppendedState(s, p);
    }
  }

  // Numbering every plan, plug-ins by id and each in plan order.

  function Tagged(plugin: Name, obligations: seq<Obligation>): seq<Planned> {
    seq(|obligations|, i requires 0 <= i < |obligations| => Planned(plugin, obligations[i]))
  }

  function Flatten(plans: seq<PluginPlan>): seq<Planned> {
    if plans == [] then []
    else
      var last := plans[|plans| - 1];
      Flatten(plans[..|plans| - 1]) + Tagged(last.plugin, last.plan.obligations)
  }

  lemma {:induction false} FlattenMembers(plans: seq<PluginPlan>)
    ensures forall p :: p in Flatten(plans)
              <==> exists q | q in plans :: q.plugin == p.plugin && p.obligation in q.plan.obligations
  {
    if plans != [] {
      var before := plans[..|plans| - 1];
      var last := plans[|plans| - 1];
      FlattenMembers(before);
      assert forall q :: q in plans <==> q in before || q == last;
      TaggedMembers(last.plugin, last.plan.obligations);
    }
  }

  lemma TaggedMembers(plugin: Name, obligations: seq<Obligation>)
    ensures forall p :: p in Tagged(plugin, obligations) <==> p.plugin == plugin && p.obligation in obligations
  {
    forall p: Planned | p.plugin == plugin && p.obligation in obligations
      ensures p in Tagged(plugin, obligations)
    {
      var i :| 0 <= i < |obligations| && obligations[i] == p.obligation;
      assert Tagged(plugin, obligations)[i] == p;
    }
  }

  ghost predicate ValidPlans(plans: seq<PluginPlan>) {
    && (forall q | q in plans :: ValidPlan(q.plan))
    && (forall i, j | 0 <= i < j < |plans| :: plans[i].plugin != plans[j].plugin)
  }

  /** An obligation of this plan has no twin: not in an earlier plan, and not earlier in this one. */
  lemma NotPlannedYet(plans: seq<PluginPlan>, i: nat, j: nat)
    requires ValidPlans(plans) && i < |plans| && j < |plans[i].plan.obligations|
    ensures !PlannedAs(Flatten(plans[..i]) + Tagged(plans[i].plugin, plans[i].plan.obligations[..j]),
                       plans[i].plugin, plans[i].plan.obligations[j].id)
  {
    var early := Flatten(plans[..i]);
    var same := Tagged(plans[i].plugin, plans[i].plan.obligations[..j]);
    FlattenMembers(plans[..i]);
    var flat: seq<Planned> := early + same;
    forall k | 0 <= k < |flat|
      ensures !(flat[k].plugin == plans[i].plugin && flat[k].obligation.id == plans[i].plan.obligations[j].id)
    {
      if k < |early| {
        assert flat[k] in early;
        var q :| q in plans[..i] && q.plugin == early[k].plugin;
      } else {
        assert flat[k] == same[k - |early|];
      }
    }
  }

  lemma TaggedSnoc(plugin: Name, obligations: seq<Obligation>, j: nat)
    requires j < |obligations|
    ensures Tagged(plugin, obligations[..j + 1]) == Tagged(plugin, obligations[..j]) + [Planned(plugin, obligations[j])]
  {
  }

  lemma SlotOpened(s: State, base: seq<Obligation>, flat: seq<Planned>, plugin: Name)
    requires Numbered(s, base, flat) && plugin !in s.ids
    ensures Numbered(s.(ids := s.ids[plugin := map[]]), base, flat)
  {
    var next := s.ids[plugin := map[]];
    assert forall q :: PluginIds(next, q) == PluginIds(s.ids, q);
    assert Mapped(next, flat, s.claims);
  }

  function PluginsOf(plans: seq<PluginPlan>): set<Name> {
    set q | q in plans :: q.plugin
  }

  lemma FlattenSnoc(plans: seq<PluginPlan>, i: nat)
    requires i < |plans|
    ensures Flatten(plans[..i + 1]) == Flatten(plans[..i]) + Tagged(plans[i].plugin, plans[i].plan.obligations)
    ensures PluginsOf(plans[..i + 1]) == PluginsOf(plans[..i]) + {plans[i].plugin}
  {
    assert plans[..i + 1][..i] == plans[..i] && plans[..i + 1][i] == plans[i];
    assert plans[..i + 1] == plans[..i] + [plans[i]];
  }

  /** Number one plan after the plans before it. */
  method NumberPlan(s: State, ghost base: seq<Obligation>, ghost plans: seq<PluginPlan>, ghost i: nat, plan: PluginPlan)
    returns (next: State)
    requires ValidPlans(plans) && i < |plans| && plans[i] == plan && Numbered(s, base, Flatten(plans[..i]))
    requires s.ids.Keys == PluginsOf(plans[..i])
    ensures Numbered(next, base, Flatten(plans[..i + 1])) && next.ids.Keys == PluginsOf(plans[..i + 1])
  {
    ghost var flat := Flatten(plans[..i]);
    var obligations := plan.plan.obligations;
    assert plan in plans;
    next := s;
    if plan.plugin !in s.ids {
      SlotOpened(s, base, flat, plan.plugin);
      next := s.(ids := s.ids[plan.plugin := map[]]);
    }
    assert flat + Tagged(plan.plugin, obligations[..0]) == flat;
    for j := 0 to |obligations|
      invariant Numbered(next, base, flat + Tagged(plan.plugin, obligations[..j]))
      invariant next.ids.Keys == s.ids.Keys + {plan.plugin}
    {
      NotPlannedYet(plans, i, j);
      TaggedSnoc(plan.plugin, obligations, j);
      Reassociate(flat, Tagged(plan.plugin, obligations[..j]), [Planned(plan.plugin, obligations[j])]);
      next := NumberOne(next, base, flat + Tagged(plan.plugin, obligations[..j]), Planned(plan.plugin, obligations[j]));
    }
    Taken(obligations);
    FlattenSnoc(plans, i);
  }

  lemma NothingNumbered(base: seq<Obligation>)
    requires Consecutive(base)
    ensures Numbered(State(base, [], map[], map[]), base, [])
  {
  }

  /** Append every plug-in obligation under a ledger id, after the obligations already there. */
  method NumberPlans(plans: seq<PluginPlan>, base: seq<Obligation>) returns (s: State)
    requires ValidPlans(plans) && Consecutive(base)
    ensures Numbered(s, base, Flatten(plans))
    ensures s.ids.Keys == PluginsOf(plans)
  {
    s := State(base, [], map[], map[]);
    NothingNumbered(base);
    for i := 0 to |plans|
      invariant Numbered(s, base, Flatten(plans[..i]))
      invariant s.ids.Keys == PluginsOf(plans[..i])
    {
      s := NumberPlan(s, base, plans, i, plans[i]);
    }
    Taken(plans);
  }

  // The plans and the order they come in determine every number and every obligation.

  lemma SameClaims(claims: seq<Claim>, others: seq<Claim>, total: nat, otherTotal: nat, base: nat, flat: seq<Planned>)
    requires ClaimsOf(claims, flat) && ClaimsOf(others, flat) && Shared(claims) && Shared(others)
    requires CountedUp(total, claims, base) && CountedUp(otherTotal, others, base)
    ensures claims == others && total == otherTotal
  {
    forall j | 0 <= j < |flat|
      ensures claims[j] == others[j]
    {
      SameNumber(claims, others, total, otherTotal, base, flat, j);
    }
  }

  lemma {:induction false} SameNumber(claims: seq<Claim>, others: seq<Claim>, total: nat, otherTotal: nat, base: nat,
                                      flat: seq<Planned>, j: nat)
    requires ClaimsOf(claims, flat) && ClaimsOf(others, flat) && Shared(claims) && Shared(others)
    requires CountedUp(total, claims, base) && CountedUp(otherTotal, others, base) && j < |flat|
    ensures claims[j].id == others[j].id
  {
    if IsFirst(claims, j) {
      assert IsFirst(others, j) && NextNumber(claims, j, base) && NextNumber(others, j, base);
      SameFirsts(claims, others, flat, j);
    } else {
      var k :| 0 <= k < j && SameCheck(claims[k].obligation, claims[j].obligation);
      SameNumber(claims, others, total, otherTotal, base, flat, k);
    }
  }

  lemma {:induction false} SameFirsts(claims: seq<Claim>, others: seq<Claim>, flat: seq<Planned>, n: nat)
    requires ClaimsOf(claims, flat) && ClaimsOf(others, flat) && n <= |flat|
    ensures FirstsBefore(claims, n) == FirstsBefore(others, n)
  {
    if n > 0 {
      SameFirsts(claims, others, flat, n - 1);
      assert IsFirst(claims, n - 1) == IsFirst(others, n - 1);
    }
  }

  lemma OneFirst(claims: seq<Claim>)
    requires Shared(claims)
    ensures forall j, k | 0 <= j < k < |claims| && claims[j].id == claims[k].id :: !IsFirst(claims, k)
  {
    forall j, k | 0 <= j < k < |claims| && claims[j].id == claims[k].id
      ensures !IsFirst(claims, k)
    {
      assert SameCheck(claims[j].obligation, claims[k].obligation);
    }
  }

  /** Two first claims under one number are one claim, so a number has one obligation. */
  lemma SameStored(o: Obligation, p: Obligation, claims: seq<Claim>, base: nat)
    requires Shared(claims) && FromPlan(o, claims) && FromPlan(p, claims) && o.id == p.id
    requires o.kind == MonitoringKind <==> o.policy.Some?
    requires p.kind == MonitoringKind <==> p.policy.Some?
    requires o.policy == Some(IncompletePolicy) <==> p.policy == Some(IncompletePolicy)
    ensures o == p
  {
    OneFirst(claims);
    var j :| 0 <= j < |claims| && StoredAs(o, claims, j);
    var k :| 0 <= k < |claims| && StoredAs(p, claims, k);
    assert o.policy.Some? ==> o.policy.value == NotExercisedPolicy || o.policy.value == IncompletePolicy;
    assert p.policy.Some? ==> p.policy.value == NotExercisedPolicy || p.policy.value == IncompletePolicy;
  }

  lemma SameIds(ids: map<Name, map<nat, nat>>, others: map<Name, map<nat, nat>>, flat: seq<Planned>, claims: seq<Claim>)
    requires |claims| == |flat| && Mapped(ids, flat, claims) && Mapped(others, flat, claims) && ids.Keys == others.Keys
    ensures ids == others
  {
    forall plugin | plugin in ids
      ensures ids[plugin] == others[plugin]
    {
      forall local
        ensures local in ids[plugin] <==> local in others[plugin]
        ensures local in ids[plugin] ==> ids[plugin][local] == others[plugin][local]
      {
        if local in PluginIds(ids, plugin) || local in PluginIds(others, plugin) {
          assert PlannedAs(flat, plugin, local);
          var j :| 0 <= j < |flat| && flat[j].plugin == plugin && flat[j].obligation.id == local;
        }
      }
    }
  }

  /** The numbering of these plans: what is folded into what, who planned each check first, every number and every
      obligation follow from the plans and their order. */
  lemma NumberingUnique(s: State, t: State, base: seq<Obligation>, flat: seq<Planned>)
    requires Numbered(s, base, flat) && Numbered(t, base, flat) && s.ids.Keys == t.ids.Keys
    ensures s.obligations == t.obligations && s.claims == t.claims && s.ids == t.ids
  {
    SameClaims(s.claims, t.claims, |s.obligations|, |t.obligations|, |base|, flat);
    SameIds(s.ids, t.ids, flat, s.claims);
    forall i | 0 <= i < |s.obligations|
      ensures s.obligations[i] == t.obligations[i]
    {
      if i < |base| {
        assert s.obligations[i] == base[i] == t.obligations[i];
      } else {
        assert FromPlan(s.obligations[i], s.claims) && FromPlan(t.obligations[i], s.claims);
        assert HasStrict(s.claims, s.obligations[i].id) <==> HasStrict(s.claims, t.obligations[i].id);
        SameStored(s.obligations[i], t.obligations[i], s.claims, |base|);
      }
    }
  }

  /** Some plug-in planned this check and asked for an empty window to count as incomplete. */
  ghost predicate PlannedStrictly(flat: seq<Planned>, o: Obligation) {
    exists k :: 0 <= k < |flat| && SameCheck(flat[k].obligation, o) && flat[k].obligation.policy == Some(IncompletePolicy)
  }

  /** A planned check stands in the ledger under its own target and metric, with the strictest policy any plug-in
      planned for it. */
  lemma CheckCarriesStrictestPolicy(s: State, base: seq<Obligation>, flat: seq<Planned>, j: nat)
    requires Numbered(s, base, flat) && j < |flat| && flat[j].obligation.kind == MonitoringKind
    ensures var o := s.obligations[s.claims[j].id - 1];
            SameCheck(o, flat[j].obligation) && o.policy.Some?
            && (o.policy == Some(IncompletePolicy) <==> PlannedStrictly(flat, flat[j].obligation))
  {
    var id := s.claims[j].id;
    assert StandsFor(s.obligations[id - 1], s.claims[j].obligation);
    assert s.obligations[id - 1].policy == Some(IncompletePolicy) <==> HasStrict(s.claims, s.obligations[id - 1].id);
    if HasStrict(s.claims, id) {
      var k :| 0 <= k < |s.claims| && s.claims[k].id == id && s.claims[k].obligation.policy == Some(IncompletePolicy);
      SharedNumber(s.claims, j, k);
      assert s.claims[k].obligation == flat[k].obligation;
    }
    if PlannedStrictly(flat, flat[j].obligation) {
      var k :| 0 <= k < |flat| && SameCheck(flat[k].obligation, flat[j].obligation)
               && flat[k].obligation.policy == Some(IncompletePolicy);
      assert s.claims[k].obligation == flat[k].obligation;
      SharedNumber(s.claims, j, k);
    }
  }

  lemma SharedNumber(claims: seq<Claim>, j: nat, k: nat)
    requires Shared(claims) && j < |claims| && k < |claims| && claims[j].obligation.kind == MonitoringKind
    ensures claims[j].id == claims[k].id <==> SameCheck(claims[j].obligation, claims[k].obligation)
  {
  }
}
