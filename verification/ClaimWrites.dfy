/** What each write of the claim protocol rests on and what it leaves, over whole runs and in the bounds the documentation
    names: every claim held was taken when it was due, every attempt was committed in time under a live lease, nobody
    takes a live claim away, and a write whose conditions hold applies. */
module ClaimWrites {
  import opened Contracts
  import opened ClaimProtocol
  import opened ClaimInvariant
  import opened ClaimTheorems

  const SECOND: int := 1000
  const MINUTE: int := 60 * SECOND

  /** The root waits, nobody holds it, and its check is due. */
  predicate DueAndFree(root: Root, now: int) {
    && root.status == Waiting && root.claim.None?
    && (root.nextCheckAt.Some? ==> root.nextCheckAt.value <= now)
  }

  /** An attempt of this kind is left and its time is now: early within 45 minutes of the change and only until one was
      published, final from 60 minutes on. */
  predicate Open(root: Root, kind: RunKind, now: int) {
    match kind
    case Early => root.early < 2 && root.earlyRunId.None? && now < root.changedAt + 45 * MINUTE
    case Final => root.final < 2 && now >= root.changedAt + 60 * MINUTE
  }

  /** A claim as it is taken: uncommitted, for five minutes, forced when it is final and two hours late. */
  predicate JustTaken(claim: Claim, token: Token, kind: RunKind, root: Root, now: int) {
    && claim.token == token && claim.kind == kind && claim.leaseUntil == now + 5 * MINUTE
    && claim.attempt.None? && claim.startedAt.None?
    && (claim.finalForced <==> kind == Final && now >= root.changedAt + 120 * MINUTE)
  }

  // Leases.

  /** Taking a lease on a root gives exactly the claim asked for, and applies exactly when the root is due, free and open
      for the kind. */
  lemma LeaseExactly(w: World, kind: RunKind, token: Token)
    requires w.root.Some? && Guard(w, TakeLease(kind, token))
    ensures var root, after := w.root.value, Fire(w, TakeLease(kind, token)).root;
            if DueAndFree(root, w.now) && Open(root, kind, w.now)
            then after.Some? && after.value.claim.Some?
                 && JustTaken(after.value.claim.value, token, kind, root, w.now)
                 && after.value == root.(claim := after.value.claim)
            else after == w.root
    ensures token in Fire(w, TakeLease(kind, token)).issued && Fire(w, TakeLease(kind, token)).runs == w.runs
  {
  }

  /** The step from world `i` takes this claim. */
  ghost predicate TakenAt(b: seq<World>, i: nat, claim: Claim) {
    && i + 1 < |b| && b[i].root.Some? && b[i + 1].root.Some?
    && DueAndFree(b[i].root.value, b[i].now) && Open(b[i].root.value, claim.kind, b[i].now)
    && claim.token !in b[i].issued
    && b[i + 1].root.value.claim.Some?
    && JustTaken(b[i + 1].root.value.claim.value, claim.token, claim.kind, b[i].root.value, b[i].now)
    && b[i + 1].root.value.claim.value.finalForced == claim.finalForced
  }

  /** Every claim a root holds was taken by one process when the root was due, free and open for its kind; while it is not
      committed it is just as it was taken. */
  lemma {:induction false} ClaimWasDue(b: seq<World>, j: nat) returns (i: nat)
    requires Behavior(b) && j < |b| && b[j].root.Some? && b[j].root.value.claim.Some?
    ensures i < j && TakenAt(b, i, b[j].root.value.claim.value)
    ensures b[j].root.value.claim.value.attempt.None? ==> b[i + 1].root.value.claim == b[j].root.value.claim
  {
    if j == 0 {
      assert false;
    } else {
      assert StepAt(b, j);
      var s :| Guard(b[j - 1], s) && b[j] == Fire(b[j - 1], s);
      ClaimComesFrom(b[j - 1], s);
      if s.TakeLease? && (b[j - 1].root.None? || b[j - 1].root.value.claim != b[j].root.value.claim) {
        LeaseExactly(b[j - 1], s.kind, s.token);
        i := j - 1;
      } else {
        i := ClaimWasDue(b, j - 1);
      }
    }
  }

  /** The same claim, possibly committed since. */
  predicate SameClaim(before: Claim, after: Claim) {
    && after.token == before.token && after.kind == before.kind && after.finalForced == before.finalForced
    && (after.attempt.None? ==> after == before)
  }

  lemma ClaimComesFrom(w: World, s: Step)
    requires Guard(w, s) && Fire(w, s).root.Some? && Fire(w, s).root.value.claim.Some?
    ensures w.root.Some?
    ensures (w.root.value.claim.Some? && SameClaim(w.root.value.claim.value, Fire(w, s).root.value.claim.value))
            || (s.TakeLease? && w.root.value.claim.None?)
  {
  }

  // Commits.

  /** The step from world `i` commits attempt number `n + 1` of this kind. */
  ghost predicate CommittedAt(b: seq<World>, i: nat, kind: RunKind, n: nat, record: Commit) {
    && i + 1 < |b| && b[i].root.Some? && b[i].root.value.claim.Some?
    && var root, claim := b[i].root.value, b[i].root.value.claim.value;
       && root.status == Waiting && claim.kind == kind && claim.token == record.token && claim.attempt.None?
       && claim.leaseUntil > b[i].now && Attempts(root, kind) == n < 2
       && (kind == Early ==> root.earlyRunId.None? && b[i].now < root.changedAt + 45 * MINUTE)
       && record == Commit(claim.token, n + 1, b[i].now)
  }

  /** What a commit leaves: the attempt counted, and the same claim under its number, started now and for five minutes. */
  predicate JustCommitted(before: Root, after: Root, kind: RunKind, now: int) {
    && before.claim.Some? && after.claim.Some?
    && var n := Attempts(before, kind) + 1;
       && after.claim.value
          == before.claim.value.(attempt := Some(n), startedAt := Some(now), leaseUntil := now + 5 * MINUTE)
       && after == (if kind == Early then before.(early := n, claim := after.claim)
                    else before.(final := n, claim := after.claim))
  }

  lemma CommitExactly(w: World, fence: Fence, kind: RunKind)
    requires w.root.Some? && Guard(w, CommitAttempt(fence, kind))
    ensures var root, after := w.root.value, Fire(w, CommitAttempt(fence, kind));
            if && root.status == Waiting && root.claim.Some? && root.claim.value.token == fence.token
               && root.claim.value.attempt.None? && root.claim.value.kind == kind && root.claim.value.leaseUntil > w.now
               && Attempts(root, kind) < 2
               && (kind == Early ==> root.earlyRunId.None? && w.now < root.changedAt + 45 * MINUTE)
            then after.root.Some? && JustCommitted(root, after.root.value, kind, w.now)
                 && Log(after.history, kind) == Log(w.history, kind) + [Commit(fence.token, Attempts(root, kind) + 1, w.now)]
                 && (forall k | k != kind :: Log(after.history, k) == Log(w.history, k))
            else after == w
  {
  }

  /** Every attempt on record was committed under a live lease on its own claim, and an early one within 45 minutes of the
      change and before any early run was published. */
  lemma {:induction false} CommitWasTimely(b: seq<World>, j: nat, kind: RunKind, n: nat) returns (i: nat)
    requires Behavior(b) && j < |b| && n < |Log(b[j].history, kind)|
    ensures i < j && CommittedAt(b, i, kind, n, Log(b[j].history, kind)[n])
  {
    if j == 0 {
      assert false;
    } else {
      LogCounts(b, j - 1);
      assert StepAt(b, j);
      var s :| Guard(b[j - 1], s) && b[j] == Fire(b[j - 1], s);
      LogComesFrom(b[j - 1], s, kind);
      if n < |Log(b[j - 1].history, kind)| {
        i := CommitWasTimely(b, j - 1, kind, n);
      } else {
        CommitExactly(b[j - 1], s.fence, s.kind);
        i := j - 1;
      }
    }
  }

  /** There are as many attempts on record as the root counts. */
  lemma LogCounts(b: seq<World>, j: nat)
    requires Behavior(b) && j < |b|
    ensures forall kind | b[j].root.Some? :: |Log(b[j].history, kind)| == Attempts(b[j].root.value, kind)
  {
    Reached(b, j);
  }

  lemma LogComesFrom(w: World, s: Step, kind: RunKind)
    requires Guard(w, s) && (w.root.Some? ==> |Log(w.history, kind)| == Attempts(w.root.value, kind))
    ensures Log(Fire(w, s).history, kind) == Log(w.history, kind)
            || (s.CommitAttempt? && s.kind == kind && w.root.Some? && |Log(w.history, kind)| == Attempts(w.root.value, kind)
                && Log(w.history, kind) <= Log(Fire(w, s).history, kind)
                && |Log(Fire(w, s).history, kind)| == |Log(w.history, kind)| + 1)
  {
  }

  // Who may end a claim.

  /** The step is one the claim's own holder, or whoever resolved its run, takes under its fence. */
  predicate UnderFence(s: Step, token: Token) {
    match s
    case Release(fence) => fence.token == token
    case CommitAttempt(fence, _) => fence.token == token
    case PublishSucceeded(fence, _) => fence.token == token
    case PublishFailed(fence) => fence.token == token
    case _ => false
  }

  /** Nobody takes a live claim away: while its lease lasts, only steps under its own fence touch it. */
  lemma LiveClaimIsKept(w: World, s: Step)
    requires Guard(w, s) && w.root.Some? && w.root.value.claim.Some?
    requires w.now < w.root.value.claim.value.leaseUntil && !UnderFence(s, w.root.value.claim.value.token)
    ensures Fire(w, s).root.Some? && Fire(w, s).root.value.claim == w.root.value.claim
  {
  }

  /** A claim not committed goes only by its holder's release, which rests the root for a minute, or once its lease is over
      by recovery, which leaves the root as it was. */
  lemma UncommittedClaimEnds(w: World, s: Step)
    requires Guard(w, s) && w.root.Some? && w.root.value.claim.Some? && w.root.value.claim.value.attempt.None?
    requires Fire(w, s).root != w.root && !(s.CommitAttempt? && UnderFence(s, w.root.value.claim.value.token))
    ensures var root, after := w.root.value, Fire(w, s).root;
            && after.Some?
            && ((s.Release? && UnderFence(s, root.claim.value.token)
                 && after.value == root.(claim := None, nextCheckAt := Some(w.now + MINUTE)))
                || (s.RecoverUncommitted? && s.fence.token == root.claim.value.token
                    && root.claim.value.leaseUntil <= w.now && after.value == root.(claim := None)))
  {
  }

  /** And both apply to the claim they name. */
  lemma UncommittedClaimCanEnd(w: World, fence: Fence)
    requires w.root.Some? && w.root.value.claim.Some? && FenceBuilt(w, fence) && fence.attempt.None?
    requires w.root.value.claim.value.token == fence.token && w.root.value.claim.value.attempt.None?
    ensures Guard(w, Release(fence)) && Guard(w, RecoverUncommitted(fence))
    ensures Fire(w, Release(fence)).root
         == Some(w.root.value.(claim := None, nextCheckAt := Some(w.now + MINUTE)))
    ensures w.root.value.claim.value.leaseUntil <= w.now
        ==> Fire(w, RecoverUncommitted(fence)).root == Some(w.root.value.(claim := None))
  {
  }

  /** A committed claim goes only with the publication of the very run it owns, which has ended. */
  lemma CommittedClaimEnds(w: World, s: Step)
    requires Guard(w, s) && InvKnowledge(w) && w.root.Some?
    requires w.root.value.claim.Some? && w.root.value.claim.value.attempt.Some?
    requires Fire(w, s).root != w.root
    ensures var root, after, token := w.root.value, Fire(w, s).root, w.root.value.claim.value.token;
            && after.Some? && Own(w, token) && Terminal(w.runs[token].state)
            && w.runs[token].attempt == root.claim.value.attempt.value
            && ((s.PublishFailed? && Unsuccessful(w.runs[token].state)
                 && after.value == root.(claim := None, nextCheckAt := Some(w.now + MINUTE)))
                || (s.PublishSucceeded? && w.runs[token].state == Succeeded && w.runs[token].kind == root.claim.value.kind
                    && PublishedBy(root, after.value, token, w.runs[token].kind, w.now)))
  {
  }

  /** What publishing a succeeded run leaves: the pointer of its kind; after a final run the root is done, and after an
      early one it rests for a minute. */
  predicate PublishedBy(before: Root, after: Root, token: Token, kind: RunKind, now: int) {
    match kind
    case Early =>
      after == before.(claim := None, earlyRunId := Some(token), result := after.result,
                       nextCheckAt := Some(now + MINUTE))
    case Final =>
      after == before.(claim := None, finalRunId := Some(token), result := after.result,
                       status := Done, statusReason := after.statusReason, nextCheckAt := None)
  }

  /** A process that read the claim's run as ended can close the claim with it: as failed, */
  lemma FailedClaimCanEnd(w: World, fence: Fence)
    requires w.root.Some? && w.root.value.status == Waiting && FenceBuilt(w, fence) && fence.attempt.Some?
    requires Fenced(w.root.value, fence) && fence.token in w.seen && w.seen[fence.token].attempt == fence.attempt.value
    requires Unsuccessful(w.seen[fence.token].state)
    ensures Guard(w, PublishFailed(fence))
    ensures Fire(w, PublishFailed(fence)).root == Some(w.root.value.(claim := None, nextCheckAt := Some(w.now + MINUTE)))
  {
  }

  /** or with the pointer to it and the result and the reason given. */
  lemma SucceededClaimCanEnd(w: World, fence: Fence, statusReason: Option<StatusReason>)
    requires w.root.Some? && w.root.value.status == Waiting && Guard(w, PublishSucceeded(fence, statusReason))
    requires Fenced(w.root.value, fence) && w.seen[fence.token].kind == w.root.value.claim.value.kind
    ensures var after := Fire(w, PublishSucceeded(fence, statusReason)).root;
            && after.Some? && PublishedBy(w.root.value, after.value, fence.token, w.seen[fence.token].kind, w.now)
            && (w.seen[fence.token].kind == Final ==> after.value.statusReason == statusReason)
            && after.value.result.Some?
            && Publishes(after.value.result.value, fence.token, w.seen[fence.token].kind, w.seen[fence.token].verdict.value)
  {
  }

  // A root nobody holds.

  /** A root nobody holds changes only by a lease, a later check once it is due, or its exhaustion: both final attempts
      consumed without one published, and due. */
  lemma FreeRootChanges(w: World, s: Step)
    requires Guard(w, s) && w.root.Some? && w.root.value.claim.None? && Fire(w, s).root != w.root
    ensures var root, after := w.root.value, Fire(w, s).root;
            && after.Some? && DueAndFree(root, w.now)
            && (s.TakeLease?
                || (s.NothingDue? && after.value == root.(nextCheckAt := Some(w.now + MINUTE)))
                || (s.Exhaust? && root.final == 2 && root.finalRunId.None?
                    && after.value == root.(status := Done, statusReason := Some(ExhaustedReason(s.reason)),
                                            nextCheckAt := None)))
  {
  }

  lemma FreeRootCanChange(w: World, reason: Reason)
    requires w.root.Some? && DueAndFree(w.root.value, w.now)
    ensures Fire(w, NothingDue).root == Some(w.root.value.(nextCheckAt := Some(w.now + MINUTE)))
    ensures w.root.value.final == 2 && w.root.value.finalRunId.None? && reason in w.quoted
        ==> Fire(w, Exhaust(reason)).root.value.status == Done
  {
  }

  /** A root starts out waiting with nothing done, to be checked a minute after the change or the worker's time, whichever
      is later; and creating it again changes nothing. */
  lemma RootStarts(w: World, changedAt: int, workerNow: int)
    ensures var after := Fire(w, Ensure(changedAt, workerNow)).root;
            && after.Some?
            && (w.root.Some? ==> after == w.root)
            && (w.root.None? ==>
                  && after.value.changedAt == changedAt && after.value.status == Waiting && after.value.claim.None?
                  && after.value.early == 0 && after.value.final == 0
                  && after.value.earlyRunId.None? && after.value.finalRunId.None? && after.value.result.None?
                  && after.value.nextCheckAt
                     == Some((if workerNow < changedAt then changedAt else workerNow) + MINUTE))
  {
  }

  /** And only that makes one. */
  lemma OnlyEnsureCreates(w: World, s: Step)
    requires Guard(w, s) && w.root.None? && Fire(w, s).root.Some?
    ensures s.Ensure?
  {
  }

  // Runs.

  /** A run under way says nothing yet, and an abandoned one only that its lease expired. */
  predicate SaysWhy(run: Run) {
    && (run.state == Abandoned ==> run.failureReason == Some(LeaseExpiredReason) && run.verdict.None?)
    && (run.state == Running ==> run.failureReason.None? && run.finishedAt.None? && run.verdict.None?)
  }

  lemma SaysWhyStep(w: World, s: Step, token: Token)
    requires Guard(w, s) && Own(Fire(w, s), token) && (Own(w, token) ==> SaysWhy(w.runs[token]))
    ensures SaysWhy(Fire(w, s).runs[token])
  {
  }

  lemma {:induction false} RunsSayWhy(b: seq<World>, j: nat, token: Token)
    requires Behavior(b) && j < |b| && Own(b[j], token)
    ensures SaysWhy(b[j].runs[token])
  {
    if j > 0 {
      assert StepAt(b, j);
      var s :| Guard(b[j - 1], s) && b[j] == Fire(b[j - 1], s);
      if Own(b[j - 1], token) {
        RunsSayWhy(b, j - 1, token);
      }
      SaysWhyStep(b[j - 1], s, token);
    }
  }

  /** A run has four minutes from its commit, and is abandoned only once five have passed. */
  lemma RunsAreTimed(b: seq<World>, j: nat, token: Token)
    requires Behavior(b) && j < |b| && Own(b[j], token)
    ensures var run := b[j].runs[token];
            && run.deadlineAt == run.startedAt + 4 * MINUTE
            && (run.state == Abandoned ==> run.startedAt + 5 * MINUTE <= b[j].now)
  {
    Reached(b, j);
  }

  /** A worker's insert starts the run it committed, and recovery's records it as abandoned when the worker never did. */
  lemma InsertsExactly(w: World, kind: RunKind, record: Commit, workerNow: int)
    requires Guard(w, InsertRunning(kind, record)) && record.token !in w.runs
    ensures var run := Fire(w, InsertRunning(kind, record)).runs[record.token];
            && run.investigation == w.rootId && run.kind == kind && run.attempt == record.attempt
            && run.startedAt == record.startedAt && run.state == Running
    ensures Guard(w, InsertAbandoned(kind, record, workerNow)) ==>
              var run := Fire(w, InsertAbandoned(kind, record, workerNow)).runs[record.token];
              && run.investigation == w.rootId && run.kind == kind && run.attempt == record.attempt
              && run.startedAt == record.startedAt && run.state == Abandoned && run.finishedAt == Some(workerNow)
  {
  }

  /** A document that is there already is not inserted again, and one that has ended is neither finalized nor abandoned. */
  lemma EndedRunIsLeft(w: World, s: Step, token: Token)
    requires Guard(w, s) && Own(w, token) && Terminal(w.runs[token].state)
    ensures token in Fire(w, s).runs && Fire(w, s).runs[token] == w.runs[token]
  {
  }

  /** A running run ends with the outcome delivered, or abandoned, on server time. */
  lemma RunningRunCanEnd(w: World, token: Token, outcome: Outcome)
    requires RunningNow(w, token)
    ensures Guard(w, Finalize(token, outcome)) ==>
              var run := Fire(w, Finalize(token, outcome)).runs[token];
              run.finishedAt == Some(w.now) && run.state == (if outcome.Success? then Succeeded else Failed)
    ensures Guard(w, AbandonRunning(token)) ==>
              var run := Fire(w, AbandonRunning(token)).runs[token];
              run.state == Abandoned && run.finishedAt == Some(w.now)
              && run.failureReason == Some(LeaseExpiredReason)
  {
  }
}
