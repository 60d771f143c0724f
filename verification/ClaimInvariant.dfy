/** The inductive invariant of the claim protocol, and its preservation by every step. */
module ClaimInvariant {
  import opened Contracts
  import opened ClaimProtocol

  // The stored documents' own validators.

  predicate ValidClaim(claim: Claim) {
    && claim.attempt.Some? == claim.startedAt.Some?
    && (claim.attempt.Some? ==> 1 <= claim.attempt.value <= MAX_ATTEMPTS_PER_KIND)
    && (claim.kind == Early ==> !claim.finalForced)
  }

  /** The published result describes the latest run the root points at, and exists only with one. */
  predicate ResultMatchesPointer(root: Root) {
    if root.finalRunId.Some? then
      root.result.Some? && root.result.value.runId == root.finalRunId.value && root.result.value.runKind == Final
    else if root.earlyRunId.Some? then
      root.result.Some? && root.result.value.runId == root.earlyRunId.value && root.result.value.runKind == Early
    else root.result.None?
  }

  predicate ValidRoot(root: Root) {
    && root.early <= MAX_ATTEMPTS_PER_KIND && root.final <= MAX_ATTEMPTS_PER_KIND
    && (root.status == Done ==> root.statusReason.Some? && root.nextCheckAt.None? && root.claim.None?)
    && (root.status == Waiting ==> root.nextCheckAt.Some?)
    && (root.claim.Some? ==> ValidClaim(root.claim.value))
    && (root.claim.Some? && root.claim.value.attempt.Some? ==>
          root.claim.value.attempt.value == Attempts(root, root.claim.value.kind))
    && (root.finalRunId.Some? ==> root.status == Done)
    && ResultMatchesPointer(root)
  }

  predicate ValidRun(run: Run) {
    && 1 <= run.attempt <= MAX_ATTEMPTS_PER_KIND
    && (Terminal(run.state) <==> run.finishedAt.Some?)
    && (Unsuccessful(run.state) <==> run.failureReason.Some?)
    && (run.state == Succeeded ==> run.verdict.Some?)
    && (run.verdict.Some? ==> ValidVerdict(run.verdict.value))
    && run.deadlineAt == run.startedAt + ATTEMPT_DEADLINE
  }

  // History: what the commits wrote.

  predicate Occurs(h: History, kind: RunKind, i: int) {
    0 <= i < |Log(h, kind)|
  }

  function TokenAt(h: History, kind: RunKind, i: int): Token
    requires Occurs(h, kind, i)
  {
    Log(h, kind)[i].token
  }

  /** Entries are numbered from 1, were started by now, and carry tokens drawn for this root. */
  ghost predicate Numbered(h: History, now: int, issued: set<Token>) {
    forall k, i | Occurs(h, k, i) ::
      Log(h, k)[i].attempt == i + 1 && Log(h, k)[i].startedAt <= now && TokenAt(h, k, i) in issued
  }

  ghost predicate TokensApart(h: History) {
    forall k, i, k', i' | Occurs(h, k, i) && Occurs(h, k', i') && TokenAt(h, k, i) == TokenAt(h, k', i') ::
      k == k' && i == i'
  }

  ghost predicate InvLog(w: World) {
    && (w.root.None? ==> w.history == History([], []) && !w.finalLeased && !w.spent)
    && (w.root.Some? ==> |w.history.early| == w.root.value.early && |w.history.final| == w.root.value.final)
    && Numbered(w.history, w.now, w.issued) && TokensApart(w.history)
  }

  /** The token of the committed claim the root holds. */
  predicate Holds(w: World, token: Token) {
    && w.root.Some? && w.root.value.claim.Some?
    && w.root.value.claim.value.attempt.Some? && w.root.value.claim.value.token == token
  }

  ghost predicate InvClaim(w: World) {
    w.root.Some? && w.root.value.claim.Some? ==>
      var c := w.root.value.claim.value;
      && c.token in w.issued
      && (c.kind == Final ==> w.finalLeased)
      && (c.finalForced ==> w.now >= w.root.value.changedAt + FINAL_FORCED)
      && (c.attempt.None? ==>
            && c.token !in w.runs
            && forall k, i | Occurs(w.history, k, i) :: TokenAt(w.history, k, i) != c.token)
      && (c.attempt.Some? ==>
            && c.startedAt.Some?
            && c.leaseUntil == c.startedAt.value + LEASE
            && c.attempt.value == |Log(w.history, c.kind)|
            && InLog(w.history, c.kind, Commit(c.token, c.attempt.value, c.startedAt.value))
            && (c.kind == Early ==> w.root.value.earlyRunId.None?))
  }

  /** Every run of this root is the record of one commit, and every commit's token is this root's own. */
  ghost predicate InvRuns(w: World) {
    && (forall t | t in w.runs && w.runs[t].investigation == w.rootId ::
          && ValidRun(w.runs[t])
          && InLog(w.history, w.runs[t].kind, Commit(t, w.runs[t].attempt, w.runs[t].startedAt))
          && (w.runs[t].state == Abandoned ==> w.runs[t].startedAt + LEASE <= w.now))
    && (forall t | t in w.runs && t in w.issued :: w.runs[t].investigation == w.rootId)
  }

  /** A commit the root no longer holds ended in a terminal run, and succeeded only if the root points at it. */
  ghost predicate InvSettled(w: World) {
    forall k, i | Occurs(w.history, k, i) && !Holds(w, TokenAt(w.history, k, i)) ::
      && TokenAt(w.history, k, i) in w.runs
      && Terminal(w.runs[TokenAt(w.history, k, i)].state)
      && (w.runs[TokenAt(w.history, k, i)].state == Succeeded ==>
            w.root.Some? && RunId(w.root.value, k) == Some(TokenAt(w.history, k, i)))
  }

  /** A pointer names the last run of its kind, which succeeded. */
  ghost predicate PointsAtSuccess(w: World, kind: RunKind)
    requires w.root.Some?
  {
    RunId(w.root.value, kind).Some? ==>
      var t := RunId(w.root.value, kind).value;
      && Log(w.history, kind) != [] && Log(w.history, kind)[|Log(w.history, kind)| - 1].token == t
      && t in w.runs && w.runs[t].state == Succeeded && w.runs[t].verdict.Some?
  }

  ghost predicate InvPointers(w: World) {
    w.root.Some? ==>
      var root := w.root.value;
      && ValidRoot(root)
      && PointsAtSuccess(w, Early) && PointsAtSuccess(w, Final)
      && (root.result.Some? ==>
            && root.result.value.runId in w.runs
            && w.runs[root.result.value.runId].verdict.Some?
            && root.result.value ==
               FromVerdict(root.result.value.runId, root.result.value.runKind,
                           w.runs[root.result.value.runId].verdict.value))
      && (root.status == Done && root.finalRunId.None? ==>
            && w.spent
            && root.statusReason == Some(ExhaustedReason(LastFinalReason(w))))
      && (w.finalLeased ==> w.now >= root.changedAt + FINAL_MINIMUM)
  }

  /** The failure reason of the second final attempt's run. */
  ghost function LastFinalReason(w: World): Reason {
    if |w.history.final| == MAX_ATTEMPTS_PER_KIND && w.history.final[1].token in w.runs
       && w.runs[w.history.final[1].token].failureReason.Some?
    then w.runs[w.history.final[1].token].failureReason.value
    else NothingRecorded
  }

  /** What processes have read stays true. */
  ghost predicate InvKnowledge(w: World) {
    && (forall k, c | (k, c) in w.expired :: InLog(w.history, k, c) && c.startedAt + LEASE <= w.now)
    && (forall t | t in w.seen ::
          t in w.runs && w.runs[t] == w.seen[t]
          && w.seen[t].investigation == w.rootId && Terminal(w.seen[t].state))
    && (w.spent ==>
          && w.root.Some? && w.root.value.final == MAX_ATTEMPTS_PER_KIND && w.root.value.finalRunId.None?
          && (w.root.value.claim.Some? ==> w.root.value.claim.value.kind == Early))
    && (w.quoted != {} ==> w.spent)
    && (forall q | q in w.quoted :: q == LastFinalReason(w))
  }

  ghost predicate Inv(w: World) {
    InvLog(w) && InvClaim(w) && InvRuns(w) && InvSettled(w) && InvPointers(w) && InvKnowledge(w)
  }

  lemma InitInv(w: World)
    requires Init(w)
    ensures Inv(w)
  {
  }

  // Helper facts.

  /** A committed token determines its kind and attempt. */
  lemma TokenDetermines(w: World, kind: RunKind, record: Commit, kind': RunKind, record': Commit)
    requires InvLog(w)
    requires InLog(w.history, kind, record) && InLog(w.history, kind', record') && record.token == record'.token
    ensures kind == kind' && record == record'
    ensures record.token in w.issued
  {
    assert Occurs(w.history, kind, record.attempt - 1) && Occurs(w.history, kind', record'.attempt - 1);
    assert TokenAt(w.history, kind, record.attempt - 1) == TokenAt(w.history, kind', record'.attempt - 1);
  }

  /** Both final attempts of a spent root are settled, and neither succeeded. */
  lemma SpentIsSettled(w: World)
    requires InvLog(w) && InvClaim(w) && InvSettled(w) && InvKnowledge(w) && w.spent
    ensures |w.history.final| == MAX_ATTEMPTS_PER_KIND
    ensures forall i | 0 <= i < MAX_ATTEMPTS_PER_KIND ::
              var t := w.history.final[i].token;
              t in w.runs && Unsuccessful(w.runs[t].state)
  {
    forall i | 0 <= i < MAX_ATTEMPTS_PER_KIND
      ensures w.history.final[i].token in w.runs && Unsuccessful(w.runs[w.history.final[i].token].state)
    {
      assert Occurs(w.history, Final, i);
      if Holds(w, TokenAt(w.history, Final, i)) {
        var c := w.root.value.claim.value;
        TokenDetermines(w, Early, Commit(c.token, c.attempt.value, c.startedAt.value), Final, w.history.final[i]);
        assert false;
      }
    }
  }

  // Writes to one run of this root: each of the four run builders is one.

  /** A document that is absent or still running becomes `run`, the record of one of this root's commits. */
  ghost predicate RunWrite(w: World, token: Token, run: Run) {
    && (token in w.runs ==> w.runs[token].state == Running)
    && run.investigation == w.rootId && ValidRun(run)
    && InLog(w.history, run.kind, Commit(token, run.attempt, run.startedAt))
    && (run.state == Abandoned ==> run.startedAt + LEASE <= w.now)
  }

  lemma RunWriteKeepsClaim(w: World, token: Token, run: Run)
    requires InvLog(w) && InvClaim(w) && RunWrite(w, token, run)
    ensures token in w.issued
    ensures InvClaim(w.(runs := w.runs[token := run]))
  {
    assert Occurs(w.history, run.kind, run.attempt - 1);
    assert TokenAt(w.history, run.kind, run.attempt - 1) == token;
  }

  lemma RunWriteKeepsRuns(w: World, token: Token, run: Run)
    requires InvRuns(w) && RunWrite(w, token, run)
    ensures InvRuns(w.(runs := w.runs[token := run]))
  {
  }

  lemma RunWriteKeepsSettled(w: World, token: Token, run: Run)
    requires InvSettled(w) && RunWrite(w, token, run)
    ensures InvSettled(w.(runs := w.runs[token := run]))
  {
    assert forall t :: Holds(w.(runs := w.runs[token := run]), t) == Holds(w, t);
  }

  lemma RunWriteKeepsPointers(w: World, token: Token, run: Run)
    requires InvPointers(w) && RunWrite(w, token, run)
    requires w.spent ==> LastFinalReason(w.(runs := w.runs[token := run])) == LastFinalReason(w)
    ensures InvPointers(w.(runs := w.runs[token := run]))
  {
  }

  lemma RunWriteKeepsKnowledge(w: World, token: Token, run: Run)
    requires InvKnowledge(w) && RunWrite(w, token, run)
    requires w.spent ==> LastFinalReason(w.(runs := w.runs[token := run])) == LastFinalReason(w)
    ensures InvKnowledge(w.(runs := w.runs[token := run]))
  {
  }

  lemma RunWriteInv(w: World, token: Token, run: Run)
    requires Inv(w) && RunWrite(w, token, run)
    ensures Inv(w.(runs := w.runs[token := run]))
  {
    if w.spent { SpentIsSettled(w); }
    RunWriteKeepsClaim(w, token, run);
    RunWriteKeepsRuns(w, token, run);
    RunWriteKeepsSettled(w, token, run);
    RunWriteKeepsPointers(w, token, run);
    RunWriteKeepsKnowledge(w, token, run);
  }

  lemma InsertRunningInv(w: World, kind: RunKind, record: Commit)
    requires Inv(w) && InLog(w.history, kind, record)
    ensures Inv(RunInserted(w, record.token, RunningRun(w.rootId, kind, record)))
  {
    if record.token !in w.runs {
      RunWriteInv(w, record.token, RunningRun(w.rootId, kind, record));
    }
  }

  lemma InsertAbandonedInv(w: World, kind: RunKind, record: Commit, workerNow: int)
    requires Inv(w) && (kind, record) in w.expired
    ensures Inv(RunInserted(w, record.token, AbandonedRun(w.rootId, kind, record, workerNow)))
  {
    if record.token !in w.runs {
      RunWriteInv(w, record.token, AbandonedRun(w.rootId, kind, record, workerNow));
    }
  }

  lemma FinalizeInv(w: World, token: Token, outcome: Outcome)
    requires Inv(w) && token in w.issued && (outcome.Success? ==> ValidVerdict(outcome.verdict))
    ensures Inv(RunFinalized(w, token, outcome))
  {
    if RunningNow(w, token) {
      RunWriteInv(w, token, Finalized(w.runs[token], outcome, w.now));
    }
  }

  lemma AbandonRunningInv(w: World, token: Token, kind: RunKind, record: Commit)
    requires Inv(w) && (kind, record) in w.expired && record.token == token
    ensures Inv(RunAbandoned(w, token))
  {
    if RunningNow(w, token) {
      var r := w.runs[token];
      assert token in w.issued by { TokenDetermines(w, kind, record, kind, record); }
      TokenDetermines(w, kind, record, r.kind, Commit(token, r.attempt, r.startedAt));
      RunWriteInv(w, token, r.(state := Abandoned, finishedAt := Some(w.now),
                               failureReason := Some(LeaseExpiredReason)));
    }
  }

  /** A pointer's token was drawn for this root. */
  lemma PointerIssued(w: World, kind: RunKind)
    requires InvLog(w) && w.root.Some? && PointsAtSuccess(w, kind) && RunId(w.root.value, kind).Some?
    ensures RunId(w.root.value, kind).value in w.issued
  {
    assert Occurs(w.history, kind, |Log(w.history, kind)| - 1);
    assert TokenAt(w.history, kind, |Log(w.history, kind)| - 1) in w.issued;
  }

  lemma OtherRunKeepsPointers(w: World, token: Token, run: Run)
    requires InvLog(w) && InvPointers(w) && token !in w.issued
    requires w.spent ==> LastFinalReason(w.(runs := w.runs[token := run])) == LastFinalReason(w)
    ensures InvPointers(w.(runs := w.runs[token := run]))
  {
    if w.root.Some? {
      if w.root.value.earlyRunId.Some? { PointerIssued(w, Early); }
      if w.root.value.finalRunId.Some? { PointerIssued(w, Final); }
    }
  }

  lemma OtherRunKeepsSettled(w: World, token: Token, run: Run)
    requires InvLog(w) && InvSettled(w) && token !in w.issued
    ensures InvSettled(w.(runs := w.runs[token := run]))
  {
    assert forall t :: Holds(w.(runs := w.runs[token := run]), t) == Holds(w, t);
  }

  lemma CommittedIsIssued(w: World, kind: RunKind, i: nat)
    requires InvLog(w) && Occurs(w.history, kind, i)
    ensures TokenAt(w.history, kind, i) in w.issued
  {
  }

  /** Another investigation's run never touches this root's documents. */
  lemma OtherRunInv(w: World, token: Token, run: Run)
    requires Inv(w) && token !in w.issued && run.investigation != w.rootId
    requires token in w.runs ==> w.runs[token].investigation != w.rootId
    ensures Inv(w.(runs := w.runs[token := run]))
  {
    var w' := w.(runs := w.runs[token := run]);
    if w.spent {
      SpentIsSettled(w);
      CommittedIsIssued(w, Final, 1);
    }
    OtherRunKeepsPointers(w, token, run);
    OtherRunKeepsSettled(w, token, run);
    assert InvLog(w') && InvClaim(w');
    assert InvRuns(w');
    assert InvKnowledge(w');
  }

  // Reads: they change only what processes know.

  lemma GateExpiredInv(w: World, fence: Fence)
    requires Inv(w) && fence.attempt.Some?
    ensures Inv(ExpiryGated(w, fence))
  {
  }

  lemma ReadTerminalInv(w: World, token: Token)
    requires Inv(w)
    ensures Inv(TerminalRead(w, token))
  {
  }

  lemma ReadSpentRootInv(w: World)
    requires Inv(w)
    ensures Inv(SpentRead(w))
  {
  }

  /** The read finds the second final attempt's reason: every consumed final attempt left one. */
  lemma SpentHasReason(w: World)
    requires Inv(w) && w.spent
    ensures w.history.final[1].token in w.runs && IsLastFailedFinalRun(w, w.history.final[1].token)
    ensures forall t | IsLastFailedFinalRun(w, t) :: t == w.history.final[1].token
  {
    SpentIsSettled(w);
    var last := w.history.final[1];
    assert Occurs(w.history, Final, 1);
    TokenDetermines(w, Final, last, Final, last);
    forall t | t in w.runs && w.runs[t].investigation == w.rootId && w.runs[t].kind == Final
               && w.runs[t].attempt == 2
      ensures t == last.token
    {
    }
  }

  lemma ReadLastFailureInv(w: World)
    requires Inv(w) && w.spent
    ensures Inv(LastFailureRead(w))
  {
    SpentHasReason(w);
  }

  // Root writes that consume and publish nothing.

  lemma TickInv(w: World, delta: nat)
    requires Inv(w)
    ensures Inv(w.(now := w.now + delta))
  {
  }

  lemma EnsureInv(w: World, changedAt: int, workerNow: int)
    requires Inv(w)
    ensures Inv(Ensured(w, changedAt, workerNow))
  {
  }

  lemma NothingDueInv(w: World)
    requires Inv(w)
    ensures Inv(Rechecked(w))
  {
    var w' := Rechecked(w);
    RecheckedKeepsClaim(w);
    RecheckedKeepsSettled(w);
    RecheckedKeepsPointers(w);
    RecheckedKeepsKnowledge(w);
    assert InvLog(w') && InvRuns(w');
  }

  lemma RecheckedKeepsClaim(w: World)
    requires InvClaim(w)
    ensures InvClaim(Rechecked(w))
  {
  }

  lemma RecheckedKeepsSettled(w: World)
    requires InvSettled(w)
    ensures InvSettled(Rechecked(w))
  {
    assert forall t :: Holds(Rechecked(w), t) == Holds(w, t);
  }

  lemma RecheckedKeepsPointers(w: World)
    requires InvPointers(w)
    ensures InvPointers(Rechecked(w))
  {
  }

  lemma RecheckedKeepsKnowledge(w: World)
    requires InvKnowledge(w)
    ensures InvKnowledge(Rechecked(w))
  {
  }

  lemma FreedKeepsSettled(w: World, root: Root)
    requires InvSettled(w) && w.root.Some? && w.root.value.claim.Some? && w.root.value.claim.value.attempt.None?
    requires root.claim.None? && forall k :: RunId(root, k) == RunId(w.root.value, k)
    ensures InvSettled(w.(root := Some(root)))
  {
    assert forall t :: !Holds(w, t) && !Holds(w.(root := Some(root)), t);
  }

  /** Dropping an uncommitted claim consumes nothing. */
  lemma FreedInv(w: World, next: int)
    requires Inv(w) && w.root.Some? && w.root.value.claim.Some? && w.root.value.claim.value.attempt.None?
    ensures Inv(w.(root := Some(w.root.value.(claim := None, nextCheckAt := Some(next)))))
  {
    var w' := w.(root := Some(w.root.value.(claim := None, nextCheckAt := Some(next))));
    FreedKeepsSettled(w, w'.root.value);
    assert InvLog(w') && InvClaim(w') && InvRuns(w');
    assert InvPointers(w') && InvKnowledge(w');
  }

  lemma ReleaseInv(w: World, fence: Fence)
    requires Inv(w) && fence.attempt.None?
    ensures Inv(ClaimReleased(w, fence))
  {
    if w.root.Some? && Fenced(w.root.value, fence) { FreedInv(w, w.now + RECHECK_DELAY); }
  }

  lemma RecoverUncommittedInv(w: World, fence: Fence)
    requires Inv(w) && fence.attempt.None?
    ensures Inv(UncommittedRecovered(w, fence))
  {
    if w.root.Some? && Fenced(w.root.value, fence) && LeaseExpired(w.root.value, w.now) {
      FreedInv(w, w.root.value.nextCheckAt.value);
      assert w.root.value.(claim := None, nextCheckAt := Some(w.root.value.nextCheckAt.value))
          == w.root.value.(claim := None);
    }
  }

  lemma ExhaustInv(w: World, reason: Reason)
    requires Inv(w) && reason in w.quoted
    ensures Inv(RootExhausted(w, reason))
  {
    var w' := RootExhausted(w, reason);
    ExhaustKeepsClaim(w, reason);
    ExhaustKeepsSettled(w, reason);
    ExhaustKeepsPointers(w, reason);
    ExhaustKeepsKnowledge(w, reason);
    assert InvLog(w') && InvRuns(w');
  }

  lemma ExhaustKeepsClaim(w: World, reason: Reason)
    requires InvClaim(w)
    ensures InvClaim(RootExhausted(w, reason))
  {
  }

  lemma ExhaustKeepsSettled(w: World, reason: Reason)
    requires InvSettled(w)
    ensures InvSettled(RootExhausted(w, reason))
  {
    assert forall t :: Holds(RootExhausted(w, reason), t) == Holds(w, t);
  }

  lemma ExhaustKeepsPointers(w: World, reason: Reason)
    requires InvPointers(w) && InvKnowledge(w) && reason in w.quoted
    ensures InvPointers(RootExhausted(w, reason))
  {
  }

  lemma ExhaustKeepsKnowledge(w: World, reason: Reason)
    requires InvKnowledge(w)
    ensures InvKnowledge(RootExhausted(w, reason))
  {
  }

  lemma TakeLeaseInv(w: World, kind: RunKind, token: Token)
    requires Inv(w) && token !in w.issued && token !in w.runs
    ensures Inv(LeaseTaken(w, kind, token))
  {
    TakeLeaseKeepsHistory(w, kind, token);
    TakeLeaseKeepsRoot(w, kind, token);
  }

  lemma TakeLeaseKeepsHistory(w: World, kind: RunKind, token: Token)
    requires InvLog(w) && InvClaim(w) && InvRuns(w) && InvSettled(w) && token !in w.issued && token !in w.runs
    ensures InvLog(LeaseTaken(w, kind, token)) && InvClaim(LeaseTaken(w, kind, token))
    ensures InvRuns(LeaseTaken(w, kind, token)) && InvSettled(LeaseTaken(w, kind, token))
  {
    TakeLeaseKeepsLog(w, kind, token);
    TakeLeaseKeepsSettled(w, kind, token);
    assert forall k, i | Occurs(w.history, k, i) :: TokenAt(w.history, k, i) in w.issued;
  }

  lemma TakeLeaseKeepsLog(w: World, kind: RunKind, token: Token)
    requires InvLog(w)
    ensures InvLog(LeaseTaken(w, kind, token))
  {
  }

  lemma TakeLeaseKeepsSettled(w: World, kind: RunKind, token: Token)
    requires InvSettled(w)
    ensures InvSettled(LeaseTaken(w, kind, token))
  {
    assert forall t :: Holds(LeaseTaken(w, kind, token), t) == Holds(w, t);
  }

  lemma TakeLeaseKeepsRoot(w: World, kind: RunKind, token: Token)
    requires InvPointers(w) && InvKnowledge(w)
    ensures InvPointers(LeaseTaken(w, kind, token)) && InvKnowledge(LeaseTaken(w, kind, token))
  {
  }

  // The commit.

  /** Appending one record keeps every earlier one where it was. */
  lemma LoggedOccurs(h: History, kind: RunKind, record: Commit)
    ensures var h' := Logged(h, kind, record);
            forall k, i :: Occurs(h', k, i) <==> Occurs(h, k, i) || (k == kind && i == |Log(h, kind)|)
    ensures var h' := Logged(h, kind, record);
            forall k, i | Occurs(h', k, i) ::
              Log(h', k)[i] == if Occurs(h, k, i) then Log(h, k)[i] else record
  {
  }

  lemma LoggedNumbered(h: History, now: int, issued: set<Token>, kind: RunKind, record: Commit)
    requires Numbered(h, now, issued)
    requires record.attempt == |Log(h, kind)| + 1 && record.startedAt <= now && record.token in issued
    ensures Numbered(Logged(h, kind, record), now, issued)
  {
    LoggedOccurs(h, kind, record);
  }

  lemma LoggedApart(h: History, kind: RunKind, record: Commit)
    requires TokensApart(h)
    requires forall k, i | Occurs(h, k, i) :: TokenAt(h, k, i) != record.token
    ensures TokensApart(Logged(h, kind, record))
  {
    var h' := Logged(h, kind, record);
    LoggedOccurs(h, kind, record);
    forall k, i, k', i' | Occurs(h', k, i) && Occurs(h', k', i') && TokenAt(h', k, i) == TokenAt(h', k', i')
      ensures k == k' && i == i'
    {
      assert TokenAt(h', k, i) == if Occurs(h, k, i) then TokenAt(h, k, i) else record.token;
      assert TokenAt(h', k', i') == if Occurs(h, k', i') then TokenAt(h, k', i') else record.token;
    }
  }

  lemma CommitKeepsLog(w: World, fence: Fence, kind: RunKind)
    requires InvLog(w) && InvClaim(w) && w.root.Some? && CommitMatches(w.root.value, fence, kind, w.now)
    ensures InvLog(AttemptCommitted(w, fence, kind))
  {
    var record := Commit(fence.token, Attempts(w.root.value, kind) + 1, w.now);
    LoggedNumbered(w.history, w.now, w.issued, kind, record);
    LoggedApart(w.history, kind, record);
  }

  lemma CommitKeepsSettled(w: World, fence: Fence, kind: RunKind)
    requires InvSettled(w) && w.root.Some? && CommitMatches(w.root.value, fence, kind, w.now)
    ensures InvSettled(AttemptCommitted(w, fence, kind))
  {
    var w' := AttemptCommitted(w, fence, kind);
    LoggedOccurs(w.history, kind, Commit(fence.token, Attempts(w.root.value, kind) + 1, w.now));
    assert forall t :: !Holds(w, t) && (Holds(w', t) <==> t == fence.token);
    assert forall k, i | Occurs(w'.history, k, i) ::
        TokenAt(w'.history, k, i) == if Occurs(w.history, k, i) then TokenAt(w.history, k, i) else fence.token;
  }

  lemma CommitKeepsRuns(w: World, fence: Fence, kind: RunKind)
    requires InvLog(w) && InvClaim(w) && InvRuns(w)
    requires w.root.Some? && CommitMatches(w.root.value, fence, kind, w.now)
    ensures InvRuns(AttemptCommitted(w, fence, kind)) && InvClaim(AttemptCommitted(w, fence, kind))
  {
  }

  lemma CommitKeepsRoot(w: World, fence: Fence, kind: RunKind)
    requires InvLog(w) && InvPointers(w) && InvKnowledge(w) && InvClaim(w)
    requires w.root.Some? && CommitMatches(w.root.value, fence, kind, w.now)
    ensures InvPointers(AttemptCommitted(w, fence, kind)) && InvKnowledge(AttemptCommitted(w, fence, kind))
  {
  }

  lemma CommitAttemptInv(w: World, fence: Fence, kind: RunKind)
    requires Inv(w) && fence.attempt.None?
    ensures Inv(AttemptCommitted(w, fence, kind))
  {
    if w.root.Some? && CommitMatches(w.root.value, fence, kind, w.now) {
      CommitKeepsLog(w, fence, kind);
      CommitKeepsSettled(w, fence, kind);
      CommitKeepsRuns(w, fence, kind);
      CommitKeepsRoot(w, fence, kind);
    }
  }

  // Publication closes the claim.

  /** The claim's run was seen terminal, so once the claim is gone its commit is settled. */
  lemma ClosingSettles(w: World, fence: Fence, root: Root)
    requires Inv(w) && w.root.Some? && fence.attempt.Some? && Fenced(w.root.value, fence)
    requires fence.token in w.seen && root.claim.None?
    requires w.seen[fence.token].state == Succeeded ==>
               RunId(root, w.root.value.claim.value.kind) == Some(fence.token)
    requires forall k | k != w.root.value.claim.value.kind || w.seen[fence.token].state != Succeeded ::
               RunId(root, k) == RunId(w.root.value, k)
    ensures InvSettled(w.(root := Some(root)))
  {
    var c := w.root.value.claim.value;
    var w' := w.(root := Some(root));
    forall k, i | Occurs(w'.history, k, i) && TokenAt(w'.history, k, i) == c.token
      ensures k == c.kind
    {
      TokenDetermines(w, k, Log(w.history, k)[i], c.kind, Commit(c.token, c.attempt.value, c.startedAt.value));
    }
    forall k, i | Occurs(w'.history, k, i) && TokenAt(w'.history, k, i) != c.token
      ensures RunId(root, k) == RunId(w.root.value, k)
              || (w.runs[TokenAt(w'.history, k, i)].state != Succeeded)
    {
      assert !Holds(w, TokenAt(w.history, k, i));
      if k == c.kind && RunId(w.root.value, k) == Some(TokenAt(w.history, k, i)) {
        PointerIsLast(w, k, i);
        assert false;
      }
    }
  }

  /** A pointer is set only once the last commit of its kind is closed. */
  lemma PointerIsLast(w: World, kind: RunKind, i: int)
    requires Inv(w) && Occurs(w.history, kind, i) && w.root.Some?
    requires RunId(w.root.value, kind) == Some(TokenAt(w.history, kind, i))
    ensures w.root.value.claim.Some? && w.root.value.claim.value.attempt.Some? ==>
              w.root.value.claim.value.kind != kind
  {
  }

  lemma PublishSucceededInv(w: World, fence: Fence, statusReason: Option<StatusReason>)
    requires Inv(w) && fence.token in w.seen && w.seen[fence.token].state == Succeeded
    requires w.seen[fence.token].verdict.Some?
    requires w.seen[fence.token].kind == Final <==> statusReason.Some?
    ensures Inv(SuccessPublished(w, fence, statusReason))
  {
    var run := w.seen[fence.token];
    if w.root.Some? && PublishSucceededMatches(w.root.value, fence, run.kind) {
      var root := PublishedRoot(w.root.value, run, fence.token, statusReason, w.now);
      ClosingSettles(w, fence, root);
      PublishKeepsPointers(w, fence, run, statusReason);
      PublishKeepsKnowledge(w, fence, run, statusReason);
    }
  }

  /** The published run of the claim's kind becomes the root's result and its kind's pointer. */
  lemma PublishKeepsPointers(w: World, fence: Fence, run: Run, statusReason: Option<StatusReason>)
    requires InvClaim(w) && InvPointers(w) && w.root.Some?
    requires fence.token in w.runs && w.runs[fence.token] == run
    requires run.state == Succeeded && run.verdict.Some? && (run.kind == Final <==> statusReason.Some?)
    requires PublishSucceededMatches(w.root.value, fence, run.kind)
    ensures InvPointers(w.(root := Some(PublishedRoot(w.root.value, run, fence.token, statusReason, w.now))))
  {
    if run.kind == Early { assert w.root.value.finalRunId.None?; }
  }

  lemma PublishKeepsKnowledge(w: World, fence: Fence, run: Run, statusReason: Option<StatusReason>)
    requires InvKnowledge(w) && w.root.Some? && run.verdict.Some?
    requires PublishSucceededMatches(w.root.value, fence, run.kind)
    ensures InvKnowledge(w.(root := Some(PublishedRoot(w.root.value, run, fence.token, statusReason, w.now))))
  {
  }

  lemma PublishFailedInv(w: World, fence: Fence)
    requires Inv(w) && fence.token in w.seen && Unsuccessful(w.seen[fence.token].state)
    ensures Inv(FailurePublished(w, fence))
  {
    if w.root.Some? && PublishFailedMatches(w.root.value, fence) {
      ClosingSettles(w, fence, w.root.value.(claim := None, nextCheckAt := Some(w.now + RECHECK_DELAY)));
      FailureKeepsRoot(w, fence);
    }
  }

  lemma FailureKeepsRoot(w: World, fence: Fence)
    requires InvLog(w) && InvPointers(w) && InvKnowledge(w)
    ensures InvPointers(FailurePublished(w, fence)) && InvKnowledge(FailurePublished(w, fence))
  {
  }

  // Every step.

  predicate IsRead(s: Step) {
    s.Tick? || s.GateExpired? || s.ReadTerminal? || s.ReadSpentRoot? || s.ReadLastFailure?
  }

  predicate IsRunWrite(s: Step) {
    s.InsertRunning? || s.InsertAbandoned? || s.Finalize? || s.AbandonRunning? || s.OtherRun?
  }

  lemma ReadInv(w: World, s: Step)
    requires Inv(w) && Guard(w, s) && IsRead(s) && !s.ReadLastFailure?
    ensures Inv(Fire(w, s))
  {
    match s
    case Tick(delta) => TickInv(w, delta);
    case GateExpired(fence) => GateExpiredInv(w, fence);
    case ReadTerminal(token) => ReadTerminalInv(w, token);
    case ReadSpentRoot => ReadSpentRootInv(w);
  }

  lemma RunStepInv(w: World, s: Step)
    requires Inv(w) && Guard(w, s) && IsRunWrite(s)
    ensures Inv(Fire(w, s))
  {
    match s
    case InsertRunning(kind, record) => InsertRunningInv(w, kind, record);
    case InsertAbandoned(kind, record, workerNow) => InsertAbandonedInv(w, kind, record, workerNow);
    case Finalize(token, outcome) => FinalizeInv(w, token, outcome);
    case AbandonRunning(token) =>
      var k, c :| (k, c) in w.expired && c.token == token;
      AbandonRunningInv(w, token, k, c);
    case OtherRun(token, run) => OtherRunInv(w, token, run);
  }

  lemma RootStepInv(w: World, s: Step)
    requires Inv(w) && Guard(w, s) && !IsRead(s) && !IsRunWrite(s)
    ensures Inv(Fire(w, s))
  {
    match s
    case Ensure(changedAt, workerNow) => EnsureInv(w, changedAt, workerNow);
    case NothingDue => NothingDueInv(w);
    case TakeLease(kind, token) => TakeLeaseInv(w, kind, token);
    case Release(fence) => ReleaseInv(w, fence);
    case CommitAttempt(fence, kind) => CommitAttemptInv(w, fence, kind);
    case RecoverUncommitted(fence) => RecoverUncommittedInv(w, fence);
    case PublishSucceeded(fence, statusReason) => PublishSucceededInv(w, fence, statusReason);
    case PublishFailed(fence) => PublishFailedInv(w, fence);
    case Exhaust(reason) => ExhaustInv(w, reason);
  }

  /** Every step of every process keeps the invariant, whatever fence it was fired with. */
  lemma StepInv(w: World, s: Step)
    requires Inv(w) && Guard(w, s)
    ensures Inv(Fire(w, s))
  {
    if s.ReadLastFailure? {
      ReadLastFailureInv(w);
    } else if IsRead(s) {
      ReadInv(w, s);
    } else if IsRunWrite(s) {
      RunStepInv(w, s);
    } else {
      RootStepInv(w, s);
    }
  }
}
