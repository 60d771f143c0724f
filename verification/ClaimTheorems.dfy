/** What holds over every run of the claim protocol: safety between any two of its states, and the
    schedules by which recovery closes any claim and a later attempt completes any root. */
module ClaimTheorems {
  import opened Contracts
  import opened ClaimProtocol
  import opened ClaimInvariant

  predicate Own(w: World, token: Token) {
    token in w.runs && w.runs[token].investigation == w.rootId
  }

  /** A run document keeps its identity, and all of itself once it is terminal. */
  ghost predicate RunKept(run: Run, run': Run) {
    && run'.investigation == run.investigation && run'.kind == run.kind
    && run'.attempt == run.attempt && run'.startedAt == run.startedAt
    && (Terminal(run.state) ==> run' == run)
  }

  ghost predicate RunsKept(w: World, w': World) {
    forall t | Own(w, t) :: t in w'.runs && RunKept(w.runs[t], w'.runs[t])
  }

  ghost predicate RootKept(root: Root, root': Root) {
    && root'.changedAt == root.changedAt
    && (root.status == Done ==> root' == root)
    && (root.earlyRunId.Some? ==> root'.earlyRunId == root.earlyRunId)
    && (root.finalRunId.Some? ==> root'.finalRunId == root.finalRunId)
  }

  /** What every later state keeps of an earlier one. */
  ghost predicate Later(w: World, w': World) {
    && w'.now >= w.now && w'.rootId == w.rootId
    && (w.root.Some? ==> w'.root.Some? && RootKept(w.root.value, w'.root.value))
    && RunsKept(w, w')
    && w.history.early <= w'.history.early && w.history.final <= w'.history.final
    && (w.finalLeased ==> w'.finalLeased && w'.history.early == w.history.early)
  }

  // Every step leads to a later state.

  lemma RunWriteLater(w: World, token: Token, run: Run)
    requires token in w.runs ==> RunKept(w.runs[token], run) || w.runs[token].investigation != w.rootId
    ensures Later(w, w.(runs := w.runs[token := run]))
  {
  }

  lemma RunStepLater(w: World, s: Step)
    requires Inv(w) && Guard(w, s) && IsRunWrite(s)
    ensures Later(w, Fire(w, s))
  {
    match s
    case InsertRunning(kind, record) =>
      if record.token !in w.runs { RunWriteLater(w, record.token, RunningRun(w.rootId, kind, record)); }
    case InsertAbandoned(kind, record, at) =>
      if record.token !in w.runs { RunWriteLater(w, record.token, AbandonedRun(w.rootId, kind, record, at)); }
    case Finalize(token, outcome) =>
      if RunningNow(w, token) { RunWriteLater(w, token, Finalized(w.runs[token], outcome, w.now)); }
    case AbandonRunning(token) =>
      if RunningNow(w, token) {
        RunWriteLater(w, token, w.runs[token].(state := Abandoned, finishedAt := Some(w.now),
                                               failureReason := Some(LeaseExpiredReason)));
      }
    case OtherRun(token, run) => RunWriteLater(w, token, run);
  }

  lemma ReadLater(w: World, s: Step)
    requires Inv(w) && Guard(w, s) && IsRead(s)
    ensures Later(w, Fire(w, s))
  {
  }

  /** No early attempt commits once a final lease was taken: the server clock is past the early cutoff. */
  lemma CommitLater(w: World, fence: Fence, kind: RunKind)
    requires Inv(w)
    ensures Later(w, AttemptCommitted(w, fence, kind))
  {
  }

  lemma PublishLater(w: World, fence: Fence, statusReason: Option<StatusReason>)
    requires Inv(w) && fence.token in w.seen && w.seen[fence.token].verdict.Some?
    ensures Later(w, SuccessPublished(w, fence, statusReason))
  {
  }

  lemma RootStepLater(w: World, s: Step)
    requires Inv(w) && Guard(w, s) && !IsRunWrite(s) && !IsRead(s)
    ensures Later(w, Fire(w, s))
  {
    match s
    case CommitAttempt(fence, kind) => CommitLater(w, fence, kind);
    case PublishSucceeded(fence, statusReason) => PublishLater(w, fence, statusReason);
    case _ => OtherRootStepLater(w, s);
  }

  lemma OtherRootStepLater(w: World, s: Step)
    requires InvPointers(w) && Guard(w, s) && !IsRunWrite(s) && !IsRead(s)
    requires !s.CommitAttempt? && !s.PublishSucceeded?
    ensures Later(w, Fire(w, s))
  {
    OtherRootStepKeeps(w, s);
    SameRunsLater(w, Fire(w, s));
  }

  lemma SameRunsLater(w: World, w': World)
    requires w'.runs == w.runs && w'.history == w.history && w'.rootId == w.rootId && w'.now >= w.now
    requires w.root.Some? ==> w'.root.Some? && RootKept(w.root.value, w'.root.value)
    requires w.finalLeased ==> w'.finalLeased
    ensures Later(w, w')
  {
  }

  lemma OtherRootStepKeeps(w: World, s: Step)
    requires InvPointers(w) && Guard(w, s) && !IsRunWrite(s) && !IsRead(s)
    requires !s.CommitAttempt? && !s.PublishSucceeded?
    ensures var after := Fire(w, s);
            && after.runs == w.runs && after.history == w.history && after.rootId == w.rootId && after.now >= w.now
            && (w.root.Some? ==> after.root.Some? && RootKept(w.root.value, after.root.value))
            && (w.finalLeased ==> after.finalLeased)
  {
  }

  lemma StepLater(w: World, s: Step)
    requires Inv(w) && Guard(w, s)
    ensures Later(w, Fire(w, s))
  {
    if IsRunWrite(s) { RunStepLater(w, s); } else if IsRead(s) { ReadLater(w, s); } else { RootStepLater(w, s); }
  }

  lemma LaterTransitive(a: World, b: World, c: World)
    requires Later(a, b) && Later(b, c)
    ensures Later(a, c)
  {
  }

  /** The invariant holds in every state of every run. */
  lemma {:induction false} Reached(b: seq<World>, i: nat)
    requires Behavior(b) && i < |b|
    ensures Inv(b[i])
  {
    if i == 0 {
      InitInv(b[0]);
    } else {
      Reached(b, i - 1);
      assert StepAt(b, i);
      var s :| Guard(b[i - 1], s) && b[i] == Fire(b[i - 1], s);
      StepInv(b[i - 1], s);
    }
  }

  lemma {:induction false} Onward(b: seq<World>, i: nat, j: nat)
    requires Behavior(b) && i <= j < |b|
    ensures Later(b[i], b[j])
    decreases j
  {
    if i < j {
      Onward(b, i, j - 1);
      Reached(b, j - 1);
      assert StepAt(b, j);
      var s :| Guard(b[j - 1], s) && b[j] == Fire(b[j - 1], s);
      StepLater(b[j - 1], s);
      LaterTransitive(b[i], b[j - 1], b[j]);
    }
  }

  // Safety over whole runs.

  /** In every reachable state the stored documents satisfy their own validators. */
  lemma StoredDocumentsValid(b: seq<World>, i: nat)
    requires Behavior(b) && i < |b|
    ensures b[i].root.Some? ==> ValidRoot(b[i].root.value)
    ensures forall t | Own(b[i], t) :: ValidRun(b[i].runs[t])
  {
    Reached(b, i);
  }

  /** A pointer names a run of this root and of its kind that succeeded, and the result is that run's verdict. */
  lemma PointersNameSuccess(b: seq<World>, i: nat, kind: RunKind)
    requires Behavior(b) && i < |b| && b[i].root.Some? && RunId(b[i].root.value, kind).Some?
    ensures var t := RunId(b[i].root.value, kind).value;
            && Own(b[i], t) && b[i].runs[t].state == Succeeded && b[i].runs[t].kind == kind
    ensures b[i].root.value.result.Some?
    ensures var r := b[i].root.value.result.value;
            && RunId(b[i].root.value, r.runKind) == Some(r.runId)
            && Own(b[i], r.runId) && b[i].runs[r.runId].verdict.Some?
            && r == FromVerdict(r.runId, r.runKind, b[i].runs[r.runId].verdict.value)
            && (b[i].root.value.finalRunId.Some? ==> r.runKind == Final)
            && ValidVerdict(r.verdict) && |r.verdict.devices| <= MAX_ROOT_IMPACTED_DEVICES
  {
    Reached(b, i);
    PointerOwned(b[i], kind);
    PointerOwned(b[i], b[i].root.value.result.value.runKind);
    var r := b[i].root.value.result.value;
    PublishedResultValid(r.runId, r.runKind, b[i].runs[r.runId].verdict.value);
  }

  lemma PointerOwned(w: World, kind: RunKind)
    requires InvLog(w) && InvRuns(w) && w.root.Some? && PointsAtSuccess(w, kind) && RunId(w.root.value, kind).Some?
    ensures Own(w, RunId(w.root.value, kind).value) && w.runs[RunId(w.root.value, kind).value].kind == kind
  {
    var t := RunId(w.root.value, kind).value;
    PointerIssued(w, kind);
    var n := |Log(w.history, kind)| - 1;
    var last := Log(w.history, kind)[n];
    assert Occurs(w.history, kind, n) && last.attempt == n + 1;
    TokenDetermines(w, kind, last, w.runs[t].kind, Commit(t, w.runs[t].attempt, w.runs[t].startedAt));
  }

  /** A published result meets the published verdict's invariants and lists at most its bound of devices. */
  lemma PublishedResultValid(runId: Token, kind: RunKind, v: Verdict)
    requires ValidVerdict(v)
    ensures var p := FromVerdict(runId, kind, v);
            && ValidVerdict(p.verdict) && |p.verdict.devices| <= MAX_ROOT_IMPACTED_DEVICES
            && |p.verdict.devices| <= p.deviceCount
            && p.verdict.devices <= v.devices && p.deviceCount == |v.devices| + v.devicesOmitted
  {
  }

  /** Each pointer is written once, and a done root never changes again. */
  lemma PublishedOnce(b: seq<World>, i: nat, j: nat)
    requires Behavior(b) && i <= j < |b| && b[i].root.Some?
    ensures b[j].root.Some?
    ensures forall k :: RunId(b[i].root.value, k).Some? ==> RunId(b[j].root.value, k) == RunId(b[i].root.value, k)
    ensures b[i].root.value.status == Done ==> b[j].root == b[i].root
  {
    Onward(b, i, j);
  }

  /** A terminal run never changes, so a run that recovery abandoned is never published. */
  lemma AbandonedNeverPublished(b: seq<World>, i: nat, j: nat, token: Token)
    requires Behavior(b) && i <= j < |b| && Own(b[i], token) && Terminal(b[i].runs[token].state)
    ensures Own(b[j], token) && b[j].runs[token] == b[i].runs[token]
    ensures b[i].runs[token].state != Succeeded && b[j].root.Some? ==>
              forall k :: RunId(b[j].root.value, k) != Some(token)
  {
    Onward(b, i, j);
    Reached(b, j);
  }

  /** Until its lease ends, and so throughout its deadline, a committed attempt's run cannot be abandoned:
      the worker's insert and finalization both apply unless the worker already made them, and what they
      record stays for good. */
  lemma DeadlineProtectsWorker(b: seq<World>, i: nat, j: nat, kind: RunKind, record: Commit)
    requires Behavior(b) && i <= j < |b| && InLog(b[i].history, kind, record)
    requires b[i].now <= record.startedAt + ATTEMPT_DEADLINE
    ensures record.token in b[i].runs ==> b[i].runs[record.token].state != Abandoned
    ensures Own(b[i], record.token) && Terminal(b[i].runs[record.token].state) ==>
              Own(b[j], record.token) && b[j].runs[record.token].state != Abandoned
    ensures RunningNow(RunInserted(b[i], record.token, RunningRun(b[i].rootId, kind, record)), record.token)
            || (record.token in b[i].runs && b[i].runs[record.token].state in {Succeeded, Failed})
  {
    Reached(b, i);
    Onward(b, i, j);
    TokenDetermines(b[i], kind, record, kind, record);
    if record.token in b[i].runs {
      var r := b[i].runs[record.token];
      TokenDetermines(b[i], kind, record, r.kind, Commit(record.token, r.attempt, r.startedAt));
    }
  }

  /** Commits of a kind are numbered 1 to its counter under distinct tokens, and every consumed attempt the
      root does not hold has its terminal run, which succeeded only if the root points at it. */
  lemma AttemptsAccounted(b: seq<World>, i: nat, kind: RunKind)
    requires Behavior(b) && i < |b| && b[i].root.Some?
    ensures |Log(b[i].history, kind)| == Attempts(b[i].root.value, kind) <= MAX_ATTEMPTS_PER_KIND
    ensures forall n | 0 <= n < |Log(b[i].history, kind)| ::
              var c := Log(b[i].history, kind)[n];
              && c.attempt == n + 1
              && (forall m | 0 <= m < n :: Log(b[i].history, kind)[m].token != c.token)
              && (!Holds(b[i], c.token) ==>
                    && Own(b[i], c.token) && Terminal(b[i].runs[c.token].state)
                    && b[i].runs[c.token].kind == kind && b[i].runs[c.token].attempt == n + 1
                    && (b[i].runs[c.token].state == Succeeded <==> RunId(b[i].root.value, kind) == Some(c.token)))
  {
    Reached(b, i);
    var w := b[i];
    forall n | 0 <= n < |Log(w.history, kind)|
      ensures var c := Log(w.history, kind)[n];
              && c.attempt == n + 1
              && (forall m | 0 <= m < n :: Log(w.history, kind)[m].token != c.token)
              && (!Holds(w, c.token) ==>
                    && Own(w, c.token) && Terminal(w.runs[c.token].state)
                    && w.runs[c.token].kind == kind && w.runs[c.token].attempt == n + 1
                    && (w.runs[c.token].state == Succeeded <==> RunId(w.root.value, kind) == Some(c.token)))
    {
      SettledCommit(w, kind, n);
    }
  }

  lemma SettledCommit(w: World, kind: RunKind, n: nat)
    requires InvLog(w) && InvRuns(w) && InvSettled(w)
    requires w.root.Some? && PointsAtSuccess(w, kind) && n < |Log(w.history, kind)|
    ensures var c := Log(w.history, kind)[n];
            && c.attempt == n + 1
            && (forall m | 0 <= m < n :: Log(w.history, kind)[m].token != c.token)
            && (!Holds(w, c.token) ==>
                  && Own(w, c.token) && Terminal(w.runs[c.token].state)
                  && w.runs[c.token].kind == kind && w.runs[c.token].attempt == n + 1
                  && (w.runs[c.token].state == Succeeded <==> RunId(w.root.value, kind) == Some(c.token)))
  {
    var c := Log(w.history, kind)[n];
    assert Occurs(w.history, kind, n) && TokenAt(w.history, kind, n) == c.token;
    forall m | 0 <= m < n
      ensures Log(w.history, kind)[m].token != c.token
    {
      assert Occurs(w.history, kind, m) && TokenAt(w.history, kind, m) == Log(w.history, kind)[m].token;
    }
    if !Holds(w, c.token) {
      var r := w.runs[c.token];
      TokenDetermines(w, kind, c, kind, c);
      TokenDetermines(w, kind, c, r.kind, Commit(c.token, r.attempt, r.startedAt));
    }
  }

  /** Whenever exhaustion can apply, both final attempts ended failed or abandoned and a reason is there to quote. */
  lemma ExhaustionIsJustified(b: seq<World>, i: nat)
    requires Behavior(b) && i < |b| && b[i].root.Some? && ExhaustMatches(b[i].root.value, b[i].now)
    ensures |b[i].history.final| == 2
    ensures forall n | 0 <= n < 2 :: Own(b[i], b[i].history.final[n].token)
                                     && Unsuccessful(b[i].runs[b[i].history.final[n].token].state)
    ensures IsLastFailedFinalRun(b[i], b[i].history.final[1].token)
  {
    Reached(b, i);
    assert Inv(b[i].(spent := true));
    SpentHasReason(b[i].(spent := true));
    SettledCommit(b[i], Final, 0);
    SettledCommit(b[i], Final, 1);
  }

  /** A root done without a final run had two unsuccessful final attempts, and quotes the second one's reason. */
  lemma ExhaustedRootQuotesLastFailure(b: seq<World>, i: nat)
    requires Behavior(b) && i < |b| && b[i].root.Some?
    requires b[i].root.value.status == Done && b[i].root.value.finalRunId.None?
    ensures |b[i].history.final| == 2
    ensures forall n | 0 <= n < 2 :: Own(b[i], b[i].history.final[n].token)
                                     && Unsuccessful(b[i].runs[b[i].history.final[n].token].state)
    ensures var last := b[i].history.final[1].token;
            && last in b[i].runs && b[i].runs[last].failureReason.Some?
            && b[i].root.value.statusReason == Some(ExhaustedReason(b[i].runs[last].failureReason.value))
  {
    Reached(b, i);
    SpentIsSettled(b[i]);
    assert b[i].root.value.statusReason == Some(ExhaustedReason(LastFinalReason(b[i])));
    SettledCommit(b[i], Final, 0);
    SettledCommit(b[i], Final, 1);
    assert b[i].runs[b[i].history.final[1].token].failureReason.Some?;
  }

  /** After any final lease was taken, no early attempt is ever committed again. */
  lemma NoEarlyCommitAfterFinalLease(b: seq<World>, i: nat, j: nat, k: nat, token: Token)
    requires Behavior(b) && i < j <= k < |b| && b[i].root.Some?
    requires b[j] == LeaseTaken(b[i], Final, token) && LeaseMatches(b[i].root.value, Final, b[i].now)
    ensures b[k].history.early == b[i].history.early
    ensures b[k].root.Some? && b[k].root.value.early == b[i].root.value.early
  {
    Reached(b, i);
    Reached(b, k);
    Onward(b, j, k);
  }

  /** Recovery resolves a committed attempt in two passes: whatever other processes do between its reads and
      writes, the read after its second write is terminal. */
  lemma TwoPassesSuffice(b: seq<World>, read1: nat, write1: nat, read2: nat, write2: nat, read3: nat,
                         kind: RunKind, record: Commit, workerNow: int)
    requires Behavior(b) && read1 <= write1 < read2 <= write2 < read3 < |b|
    requires InLog(b[read1].history, kind, record)
    requires b[write1 + 1] ==
             if record.token !in b[read1].runs
             then RunInserted(b[write1], record.token, AbandonedRun(b[write1].rootId, kind, record, workerNow))
             else RunAbandoned(b[write1], record.token)
    requires RunningNow(b[read2], record.token) ==> b[write2 + 1] == RunAbandoned(b[write2], record.token)
    ensures Own(b[read2], record.token) && Own(b[read3], record.token)
    ensures Terminal(b[read3].runs[record.token].state)
  {
    CommitCarried(b, read1, read1, kind, record);
    CommitCarried(b, read1, write1, kind, record);
    CommitCarried(b, read1, write1 + 1, kind, record);
    RunCarried(b, read1, write1, record.token);
    assert record.token in b[write1 + 1].runs;
    assert Own(b[write1 + 1], record.token);
    RunCarried(b, write1 + 1, read2, record.token);
    CommitCarried(b, read1, write2, kind, record);
    CommitCarried(b, read1, write2 + 1, kind, record);
    RunCarried(b, read2, write2, record.token);
    RunCarried(b, write2 + 1, read3, record.token);
    RunCarried(b, read2, read3, record.token);
  }

  /** A commit stays logged, and its token only ever names a run of this root. */
  lemma CommitCarried(b: seq<World>, i: nat, j: nat, kind: RunKind, record: Commit)
    requires Behavior(b) && i <= j < |b| && InLog(b[i].history, kind, record)
    ensures InLog(b[j].history, kind, record)
    ensures record.token in b[j].runs ==> Own(b[j], record.token)
  {
    Onward(b, i, j);
    Reached(b, j);
    TokenDetermines(b[j], kind, record, kind, record);
  }

  /** A run of this root stays, and stays terminal. */
  lemma RunCarried(b: seq<World>, i: nat, j: nat, token: Token)
    requires Behavior(b) && i <= j < |b|
    ensures Own(b[i], token) ==> Own(b[j], token)
    ensures Own(b[i], token) && Terminal(b[i].runs[token].state) ==> b[j].runs[token] == b[i].runs[token]
  {
    Onward(b, i, j);
  }

  /** A claim that is freed or closed while the root waits holds the next lease and exhaustion off for the
      recheck delay. */
  lemma ClosedClaimWaits(b: seq<World>, i: nat, j: nat, s: Step)
    requires Behavior(b) && i < j < |b| && Guard(b[i], s) && b[i + 1] == Fire(b[i], s)
    requires s.Release? || s.PublishFailed? || s.PublishSucceeded?
    requires b[i].root.Some? && b[i].root.value.claim.Some?
    requires b[i + 1].root.Some? && b[i + 1].root.value.claim.None?
    requires b[j].now < b[i].now + RECHECK_DELAY
    ensures b[j].root == b[i + 1].root
    decreases j
  {
    if i + 1 < j {
      Onward(b, j - 1, j);
      ClosedClaimWaits(b, i, j - 1, s);
      assert StepAt(b, j);
      var t :| Guard(b[j - 1], t) && b[j] == Fire(b[j - 1], t);
      RestingStep(b[j - 1], t, b[i].now + RECHECK_DELAY);
    }
  }

  /** Nothing is due of the root before `until`, and nobody holds a claim on it. */
  predicate Resting(root: Root, until: int) {
    root.claim.None? && (root.status == Done || (root.nextCheckAt.Some? && root.nextCheckAt.value >= until))
  }

  lemma RestingStep(w: World, s: Step, until: int)
    requires Guard(w, s) && w.root.Some? && Resting(w.root.value, until) && w.now < until
    ensures Fire(w, s).root == w.root
  {
  }

  /** Only a final claim is forced, and only past the forced bound on server time. */
  lemma ForcedClaimIsLate(b: seq<World>, i: nat)
    requires Behavior(b) && i < |b| && b[i].root.Some? && b[i].root.value.claim.Some?
    requires b[i].root.value.claim.value.finalForced
    ensures b[i].root.value.claim.value.kind == Final && b[i].now >= b[i].root.value.changedAt + FINAL_FORCED
  {
    Reached(b, i);
  }

  // What a worker delivers is what the run keeps and the root publishes.

  /** World `i` takes this outcome for a running run of this root. */
  ghost predicate Delivers(b: seq<World>, i: nat, token: Token, outcome: Outcome) {
    && i + 1 < |b| && RunningNow(b[i], token) && Guard(b[i], Finalize(token, outcome))
    && b[i + 1] == Fire(b[i], Finalize(token, outcome))
  }

  /** The published form of a verdict: all of it but the devices past the root's bound, which are counted. */
  predicate Publishes(p: Published, token: Token, kind: RunKind, v: Verdict) {
    && p.runId == token && p.runKind == kind
    && p.verdict == v.(devices := p.verdict.devices)
    && p.verdict.devices <= v.devices
    && |p.verdict.devices| == (if |v.devices| < 20 then |v.devices| else 20)
    && p.deviceCount == |v.devices| + v.devicesOmitted
  }

  /** A verdict delivered for a running run is that run's, whole and for good, finished on server time; and a root that
      names the run publishes that verdict. */
  lemma DeliveredVerdictIsKept(b: seq<World>, i: nat, j: nat, token: Token, v: Verdict)
    requires Behavior(b) && i < j < |b| && Delivers(b, i, token, Success(v))
    ensures Own(b[i], token) && Own(b[j], token)
    ensures var was, run := b[i].runs[token], b[j].runs[token];
            && run.kind == was.kind && run.attempt == was.attempt && run.startedAt == was.startedAt
            && run.state == Succeeded && run.verdict == Some(v)
            && run.finishedAt == Some(b[i].now) && run.failureReason.None?
    ensures b[j].root.Some? && b[j].root.value.result.Some? && b[j].root.value.result.value.runId == token
        ==> Publishes(b[j].root.value.result.value, token, b[i].runs[token].kind, v)
  {
    Reached(b, i);
    Onward(b, i + 1, j);
    if b[j].root.Some? && b[j].root.value.result.Some? && b[j].root.value.result.value.runId == token {
      PointedResult(b, j);
    }
  }

  /** The stored result is that of the run it names. */
  lemma PointedResult(b: seq<World>, j: nat)
    requires Behavior(b) && j < |b| && b[j].root.Some? && b[j].root.value.result.Some?
    ensures var r := b[j].root.value.result.value;
            && Own(b[j], r.runId) && b[j].runs[r.runId].state == Succeeded && b[j].runs[r.runId].kind == r.runKind
            && b[j].runs[r.runId].verdict.Some?
            && Publishes(r, r.runId, r.runKind, b[j].runs[r.runId].verdict.value)
  {
    Reached(b, j);
    var kind := b[j].root.value.result.value.runKind;
    assert ResultMatchesPointer(b[j].root.value);
    PointerOwned(b[j], kind);
  }

  /** A failure delivered for a running run is recorded with its reason, for good; and a root exhausted after it quotes
      that very reason. */
  lemma DeliveredFailureIsKept(b: seq<World>, i: nat, j: nat, token: Token, reason: Reason)
    requires Behavior(b) && i < j < |b| && Delivers(b, i, token, Failure(reason))
    ensures Own(b[i], token) && Own(b[j], token)
    ensures var was, run := b[i].runs[token], b[j].runs[token];
            && run.kind == was.kind && run.attempt == was.attempt && run.startedAt == was.startedAt
            && run.state == Failed && run.failureReason == Some(reason) && run.finishedAt == Some(b[i].now)
    ensures b[j].root.Some? && b[j].root.value.status == Done && b[j].root.value.finalRunId.None?
            && b[i].runs[token].kind == Final && b[i].runs[token].attempt == MAX_ATTEMPTS_PER_KIND
        ==> b[j].root.value.statusReason == Some(ExhaustedReason(reason))
  {
    Reached(b, i);
    Onward(b, i + 1, j);
    if b[j].root.Some? && b[j].root.value.status == Done && b[j].root.value.finalRunId.None?
       && b[i].runs[token].kind == Final && b[i].runs[token].attempt == MAX_ATTEMPTS_PER_KIND {
      ExhaustedRootQuotesLastFailure(b, j);
      LastFinalToken(b, j, token);
    }
  }

  /** The run of the second final attempt is the one its commit names. */
  lemma LastFinalToken(b: seq<World>, j: nat, token: Token)
    requires Behavior(b) && j < |b| && Own(b[j], token)
    requires b[j].runs[token].kind == Final && b[j].runs[token].attempt == MAX_ATTEMPTS_PER_KIND
    ensures |b[j].history.final| >= 2 && b[j].history.final[1].token == token
  {
    Reached(b, j);
    assert InLog(b[j].history, Final, Commit(token, MAX_ATTEMPTS_PER_KIND, b[j].runs[token].startedAt));
  }

  /** And nothing else is ever published: whatever a root's result shows, some worker delivered as the verdict of the run
      it names. */
  lemma PublishedWasDelivered(b: seq<World>, j: nat) returns (i: nat, v: Verdict)
    requires Behavior(b) && j < |b| && b[j].root.Some? && b[j].root.value.result.Some?
    ensures i < j && Delivers(b, i, b[j].root.value.result.value.runId, Success(v))
    ensures var r := b[j].root.value.result.value; Publishes(r, r.runId, r.runKind, v)
  {
    PointedResult(b, j);
    var token := b[j].root.value.result.value.runId;
    i, v := SuccessWasDelivered(b, j, token);
  }

  lemma {:induction false} SuccessWasDelivered(b: seq<World>, j: nat, token: Token) returns (i: nat, v: Verdict)
    requires Behavior(b) && j < |b| && Own(b[j], token) && b[j].runs[token].state == Succeeded
    ensures i < j && Delivers(b, i, token, Success(v)) && b[j].runs[token].verdict == Some(v)
  {
    if j == 0 {
      assert false;
    } else {
      assert StepAt(b, j);
      var s :| Guard(b[j - 1], s) && b[j] == Fire(b[j - 1], s);
      SuccessComesFrom(b[j - 1], s, token);
      if Own(b[j - 1], token) && b[j - 1].runs[token] == b[j].runs[token] {
        i, v := SuccessWasDelivered(b, j - 1, token);
      } else {
        i, v := j - 1, s.outcome.verdict;
      }
    }
  }

  /** A succeeded run was there already, or is one this very step delivers. */
  lemma SuccessComesFrom(w: World, s: Step, token: Token)
    requires Guard(w, s) && Own(Fire(w, s), token) && Fire(w, s).runs[token].state == Succeeded
    ensures || (Own(w, token) && w.runs[token] == Fire(w, s).runs[token])
            || (s.Finalize? && s.token == token && s.outcome.Success? && RunningNow(w, token)
                && Fire(w, s).runs[token].verdict == Some(s.outcome.verdict))
  {
  }
}
