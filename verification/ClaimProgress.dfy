/** No reachable root is stuck: from any state, recovery can close whatever claim is held, and a
    root that is not done can still be completed. */
module ClaimProgress {
  import opened Contracts
  import opened ClaimProtocol
  import opened ClaimInvariant
  import opened ClaimTheorems

  /** Firing these steps in order, each under its guard, turns `w` into `w'`. */
  ghost predicate Leads(w: World, steps: seq<Step>, w': World)
    decreases |steps|
  {
    if steps == [] then w' == w else Guard(w, steps[0]) && Leads(Fire(w, steps[0]), steps[1..], w')
  }

  ghost predicate CanReach(w: World, w': World) {
    exists steps :: Leads(w, steps, w')
  }

  lemma {:induction false} LeadsJoin(a: World, s: seq<Step>, b: World, t: seq<Step>, c: World)
    requires Leads(a, s, b) && Leads(b, t, c)
    ensures Leads(a, s + t, c)
    decreases |s|
  {
    if s == [] {
      assert s + t == t;
    } else {
      LeadsJoin(Fire(a, s[0]), s[1..], b, t, c);
      assert (s + t)[1..] == s[1..] + t;
    }
  }

  lemma CanReachJoin(a: World, b: World, c: World)
    requires CanReach(a, b) && CanReach(b, c)
    ensures CanReach(a, c)
  {
    var s :| Leads(a, s, b);
    var t :| Leads(b, t, c);
    LeadsJoin(a, s, b, t, c);
  }

  lemma {:induction false} LeadsInv(w: World, steps: seq<Step>, w': World)
    requires Inv(w) && Leads(w, steps, w')
    ensures Inv(w')
    decreases |steps|
  {
    if steps != [] {
      StepInv(w, steps[0]);
      LeadsInv(Fire(w, steps[0]), steps[1..], w');
    }
  }

  /** The invariant holds wherever steps lead from a state that has it. */
  lemma ReachedInv(w: World, w': World)
    requires Inv(w) && CanReach(w, w')
    ensures Inv(w')
  {
    var steps :| Leads(w, steps, w');
    LeadsInv(w, steps, w');
  }

  /** One more step. */
  lemma Then(a: World, b: World, s: Step)
    requires CanReach(a, b) && Guard(b, s)
    ensures CanReach(a, Fire(b, s))
  {
    var c := Fire(b, s);
    assert Leads(c, [], c);
    assert Leads(b, [s], c) by { assert [s][1..] == []; }
    CanReachJoin(a, b, c);
  }

  lemma Stay(a: World)
    ensures CanReach(a, a)
  {
    assert Leads(a, [], a);
  }

  lemma {:induction false} FreshToken(used: set<Token>) returns (token: Token)
    ensures forall t | t in used :: t < token
    decreases |used|
  {
    if used == {} {
      token := 0;
    } else {
      var t :| t in used;
      var rest := FreshToken(used - {t});
      assert forall t' | t' in used :: t' == t || t' in used - {t};
      token := rest + t + 1;
    }
  }

  /** The root is waiting and free of any claim. */
  predicate Free(w: World) {
    w.root.Some? && w.root.value.status == Waiting && w.root.value.claim.None?
  }

  lemma RecoveryClosesUncommitted(w: World) returns (w': World)
    requires Inv(w) && w.root.Some? && w.root.value.claim.Some? && w.root.value.claim.value.attempt.None?
    ensures CanReach(w, w') && w'.root.Some? && w'.root.value.claim.None?
  {
    var c := w.root.value.claim.value;
    var fence := Fence(w.rootId, c.token, None);
    Stay(w);
    var delta := if c.leaseUntil > w.now then c.leaseUntil - w.now else 0;
    var w1 := w.(now := w.now + delta);
    Then(w, w, Tick(delta));
    w' := UncommittedRecovered(w1, fence);
    Then(w, w1, RecoverUncommitted(fence));
  }

  /** Past its lease, the recovery gate matches a committed claim. */
  lemma GatePasses(w: World, kind: RunKind, record: Commit, fence: Fence) returns (w': World)
    requires w.root.Some? && fence == Fence(w.rootId, record.token, Some(record.attempt))
    requires 1 <= record.attempt <= MAX_ATTEMPTS_PER_KIND && record.startedAt <= w.now
    requires Fenced(w.root.value, fence) && w.root.value.claim.value.kind == kind
    requires w.root.value.claim.value.startedAt == Some(record.startedAt)
    requires w.root.value.claim.value.leaseUntil == record.startedAt + LEASE
    ensures CanReach(w, w') && (kind, record) in w'.expired
    ensures w' == w.(now := w'.now, expired := w'.expired)
  {
    Stay(w);
    var w1 := w.(now := w.now + LEASE);
    Then(w, w, Tick(LEASE));
    w' := ExpiryGated(w1, fence);
    Then(w, w1, GateExpired(fence));
  }

  /** Past its lease, a committed claim's run is inserted or abandoned, or read back when its worker ended it. */
  lemma ResolveRun(w: World, kind: RunKind, record: Commit, fence: Fence) returns (w': World)
    requires w.root.Some? && InLog(w.history, kind, record) && record.startedAt <= w.now
    requires fence == Fence(w.rootId, record.token, Some(record.attempt)) && Fenced(w.root.value, fence)
    requires 1 <= record.attempt <= MAX_ATTEMPTS_PER_KIND
    requires w.root.value.claim.value.kind == kind && w.root.value.claim.value.startedAt == Some(record.startedAt)
    requires w.root.value.claim.value.leaseUntil == record.startedAt + LEASE
    requires record.token in w.runs ==> w.runs[record.token].investigation == w.rootId
    ensures CanReach(w, w') && w'.root == w.root && w'.rootId == w.rootId && w'.history == w.history
    ensures record.token in w'.seen && Terminal(w'.seen[record.token].state)
  {
    var w2 := GatePasses(w, kind, record, fence);
    var w3 := RunInserted(w2, record.token, AbandonedRun(w2.rootId, kind, record, 0));
    Then(w, w2, InsertAbandoned(kind, record, 0));
    var w4 := RunAbandoned(w3, record.token);
    assert (kind, record) in w3.expired;
    Then(w, w3, AbandonRunning(record.token));
    w' := TerminalRead(w4, record.token);
    Then(w, w4, ReadTerminal(record.token));
  }

  lemma PublishResolved(w: World, kind: RunKind, record: Commit, fence: Fence) returns (w': World)
    requires Inv(w) && w.root.Some? && InLog(w.history, kind, record)
    requires fence == Fence(w.rootId, record.token, Some(record.attempt)) && Fenced(w.root.value, fence)
    requires w.root.value.claim.value.kind == kind && record.token in w.seen
    ensures CanReach(w, w') && w'.root.Some? && w'.root.value.claim.None?
  {
    var run := w.seen[record.token];
    TokenDetermines(w, kind, record, run.kind, Commit(record.token, run.attempt, run.startedAt));
    Stay(w);
    if run.state == Succeeded {
      var statusReason := if kind == Final then Some(FinalRunReason("")) else None;
      w' := SuccessPublished(w, fence, statusReason);
      Then(w, w, PublishSucceeded(fence, statusReason));
    } else {
      w' := FailurePublished(w, fence);
      Then(w, w, PublishFailed(fence));
    }
  }

  lemma RecoveryClosesCommitted(w: World) returns (w': World)
    requires Inv(w) && w.root.Some? && w.root.value.claim.Some? && w.root.value.claim.value.attempt.Some?
    ensures CanReach(w, w') && w'.root.Some? && w'.root.value.claim.None?
  {
    var c := w.root.value.claim.value;
    var fence := Fence(w.rootId, c.token, c.attempt);
    var record := Commit(c.token, c.attempt.value, c.startedAt.value);
    assert Occurs(w.history, c.kind, record.attempt - 1);
    TokenDetermines(w, c.kind, record, c.kind, record);
    var w1 := ResolveRun(w, c.kind, record, fence);
    ReachedInv(w, w1);
    w' := PublishResolved(w1, c.kind, record, fence);
    CanReachJoin(w, w1, w');
  }

  /** Whatever claim is held, in whatever phase, recovery can close it. */
  lemma RecoveryCloses(w: World) returns (w': World)
    requires Inv(w) && w.root.Some?
    ensures CanReach(w, w') && Inv(w') && w'.root.Some? && w'.root.value.claim.None?
  {
    if w.root.value.claim.None? {
      Stay(w);
      w' := w;
    } else if w.root.value.claim.value.attempt.None? {
      w' := RecoveryClosesUncommitted(w);
    } else {
      w' := RecoveryClosesCommitted(w);
    }
    ReachedInv(w, w');
  }

  /** What the invariant says of a free root. */
  predicate Startable(w: World) {
    && Free(w) && w.root.value.nextCheckAt.Some? && w.root.value.finalRunId.None?
    && |w.history.final| == w.root.value.final <= MAX_ATTEMPTS_PER_KIND
  }

  lemma FreeIsStartable(w: World)
    requires Inv(w) && Free(w)
    ensures Startable(w)
  {
  }

  /** A free root with a final attempt left: one more attempt that succeeds completes it. */
  lemma FinalAttemptCompletes(w: World, v: Verdict) returns (w': World)
    requires Startable(w) && w.root.value.final < MAX_ATTEMPTS_PER_KIND && ValidVerdict(v)
    ensures CanReach(w, w') && w'.root.Some? && w'.root.value.status == Done
  {
    var token := FreshToken(w.issued + w.runs.Keys);
    var root := w.root.value;
    var due := Max(root.nextCheckAt.value, root.changedAt + FINAL_MINIMUM);
    var delta := Max(due - w.now, 0);
    var w1 := w.(now := w.now + delta);
    Stay(w);
    Then(w, w, Tick(delta));
    assert LeaseMatches(root, Final, w1.now);
    var w2 := LeaseTaken(w1, Final, token);
    Then(w, w1, TakeLease(Final, token));
    var fence := Fence(w.rootId, token, None);
    var w3 := AttemptCommitted(w2, fence, Final);
    Then(w, w2, CommitAttempt(fence, Final));
    w' := AttemptPublishes(w3, token, v);
    CanReachJoin(w, w3, w');
  }

  lemma AttemptPublishes(w: World, token: Token, v: Verdict) returns (w': World)
    requires w.root.Some? && w.root.value.claim.Some? && w.root.value.status == Waiting
    requires token in w.issued && token !in w.runs && w.root.value.claim.value.token == token
    requires w.root.value.claim.value.kind == Final && w.root.value.claim.value.startedAt.Some?
    requires w.history.final != []
    requires w.root.value.claim.value.attempt == Some(|w.history.final|)
    requires |w.history.final| <= MAX_ATTEMPTS_PER_KIND
    requires w.history.final[|w.history.final| - 1] ==
             Commit(token, |w.history.final|, w.root.value.claim.value.startedAt.value)
    requires ValidVerdict(v)
    ensures CanReach(w, w') && w'.root.Some? && w'.root.value.status == Done
  {
    var n := |w.history.final|;
    var record := w.history.final[n - 1];
    Stay(w);
    var w1 := RunInserted(w, token, RunningRun(w.rootId, Final, record));
    Then(w, w, InsertRunning(Final, record));
    var w2 := RunFinalized(w1, token, Success(v));
    Then(w, w1, Finalize(token, Success(v)));
    var w3 := TerminalRead(w2, token);
    Then(w, w2, ReadTerminal(token));
    var fence := Fence(w.rootId, token, Some(n));
    w' := SuccessPublished(w3, fence, Some(FinalRunReason("")));
    Then(w, w3, PublishSucceeded(fence, Some(FinalRunReason(""))));
  }

  /** A free root whose final attempts are spent: quoting their last failure completes it. */
  lemma ExhaustionCompletes(w: World) returns (w': World)
    requires Startable(w) && w.root.value.final == MAX_ATTEMPTS_PER_KIND
    ensures CanReach(w, w') && w'.root.Some? && w'.root.value.status == Done
  {
    Stay(w);
    var w1 := SpentRead(w);
    Then(w, w, ReadSpentRoot);
    var w2, reason := SomeReasonRead(w1);
    Then(w, w1, ReadLastFailure);
    var delta := Max(w.root.value.nextCheckAt.value - w.now, 0);
    var w3 := w2.(now := w2.now + delta);
    Then(w, w2, Tick(delta));
    w' := RootExhausted(w3, reason);
    Then(w, w3, Exhaust(reason));
  }

  lemma SomeReasonRead(w: World) returns (w': World, reason: Reason)
    ensures w' == LastFailureRead(w) && reason in w'.quoted && w' == w.(quoted := w'.quoted)
  {
    w' := LastFailureRead(w);
    reason :| reason in w'.quoted;
  }

  /** From every state any interleaving can reach, the root can still be brought to done. */
  lemma EveryRootCanComplete(w: World, v: Verdict) returns (w': World)
    requires Inv(w) && w.root.Some? && ValidVerdict(v)
    ensures CanReach(w, w') && w'.root.Some? && w'.root.value.status == Done
  {
    var w1 := RecoveryCloses(w);
    if w1.root.value.status == Waiting { FreeIsStartable(w1); }
    if w1.root.value.status == Done {
      w' := w1;
    } else if w1.root.value.final < MAX_ATTEMPTS_PER_KIND {
      w' := FinalAttemptCompletes(w1, v);
      CanReachJoin(w, w1, w');
    } else {
      w' := ExhaustionCompletes(w1);
      CanReachJoin(w, w1, w');
    }
  }

  /** In particular from every state of every run. */
  lemma NoRunIsStuck(b: seq<World>, i: nat, v: Verdict) returns (w': World)
    requires Behavior(b) && i < |b| && b[i].root.Some? && ValidVerdict(v)
    ensures CanReach(b[i], w') && w'.root.Some? && w'.root.value.status == Done
  {
    Reached(b, i);
    w' := EveryRootCanComplete(b[i], v);
  }
}
