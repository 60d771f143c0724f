/** The claim and run lifecycle of one Guardian investigation.

    Every builder of the repository is one conditional write: a filter over the root or one run, and
    an update. `Fire` applies one of them and changes nothing when its filter does not match, so a
    step may be fired by any process, at any time, with any stale fence. `Guard` holds only what the
    orchestrator itself promises: claim tokens are freshly drawn, an attempt record is the one a
    commit wrote, recovery touches a run only after its gate matched, a run is published only as the
    terminal document some process read. What processes have read is kept in `seen`, `expired`,
    `spent` and `quoted`, which only grow, so every guard may rest on an observation of any age. */
module ClaimProtocol {
  import opened Contracts

  type Token = nat
  type RootId = nat

  datatype RunKind = Early | Final

  datatype RunState = Running | Succeeded | Failed | Abandoned

  datatype RootStatus = Waiting | Done

  /** Why a run failed: the recovery's fixed line, the line used when nothing was recorded, or recorded text. */
  datatype Reason = LeaseExpiredReason | NothingRecorded | Recorded(text: string)

  /** Why a root is done: its final run's line, or the last failure its exhausted attempts left. */
  datatype StatusReason = FinalRunReason(text: string) | ExhaustedReason(last: Reason)

  datatype Claim = Claim(
    token: Token,
    kind: RunKind,
    leaseUntil: int,
    attempt: Option<nat>,
    startedAt: Option<int>,
    finalForced: bool)

  datatype Published = Published(runId: Token, runKind: RunKind, verdict: Verdict, deviceCount: nat)

  datatype Root = Root(
    changedAt: int,
    status: RootStatus,
    statusReason: Option<StatusReason>,
    nextCheckAt: Option<int>,
    claim: Option<Claim>,
    early: nat,
    final: nat,
    earlyRunId: Option<Token>,
    finalRunId: Option<Token>,
    result: Option<Published>)

  datatype Run = Run(
    investigation: RootId,
    kind: RunKind,
    attempt: nat,
    state: RunState,
    startedAt: int,
    deadlineAt: int,
    finishedAt: Option<int>,
    failureReason: Option<Reason>,
    verdict: Option<Verdict>)

  /** A claim token and its phase: no attempt until the attempt is committed. */
  datatype Fence = Fence(root: RootId, token: Token, attempt: Option<nat>)

  /** What one commit wrote: enough to rebuild the attempt record. */
  datatype Commit = Commit(token: Token, attempt: nat, startedAt: int)

  /** The commits of each kind, in the order they were applied. */
  datatype History = History(early: seq<Commit>, final: seq<Commit>)

  /** The store, the server clock, and what processes have done and read so far. */
  datatype World = World(
    now: int,
    rootId: RootId,
    root: Option<Root>,
    runs: map<Token, Run>,
    issued: set<Token>,
    history: History,
    finalLeased: bool,
    expired: set<(RunKind, Commit)>,
    seen: map<Token, Run>,
    spent: bool,
    quoted: set<Reason>)

  datatype Outcome = Success(verdict: Verdict) | Failure(reason: Reason)

  datatype Step =
    | Tick(delta: nat)
    | Ensure(changedAt: int, workerNow: int)
    | NothingDue
    | TakeLease(kind: RunKind, token: Token)
    | Release(fence: Fence)
    | CommitAttempt(fence: Fence, kind: RunKind)
    | RecoverUncommitted(fence: Fence)
    | GateExpired(fence: Fence)
    | ReadTerminal(token: Token)
    | ReadSpentRoot
    | ReadLastFailure
    | PublishSucceeded(fence: Fence, statusReason: Option<StatusReason>)
    | PublishFailed(fence: Fence)
    | Exhaust(reason: Reason)
    | InsertRunning(kind: RunKind, record: Commit)
    | InsertAbandoned(kind: RunKind, record: Commit, workerNow: int)
    | Finalize(token: Token, outcome: Outcome)
    | AbandonRunning(token: Token)
    | OtherRun(token: Token, run: Run)

  function Max(a: int, b: int): int {
    if a < b then b else a
  }

  function Attempts(root: Root, kind: RunKind): nat {
    if kind == Early then root.early else root.final
  }

  function RunId(root: Root, kind: RunKind): Option<Token> {
    if kind == Early then root.earlyRunId else root.finalRunId
  }

  function Log(h: History, kind: RunKind): seq<Commit> {
    if kind == Early then h.early else h.final
  }

  function Logged(h: History, kind: RunKind, record: Commit): History {
    if kind == Early then h.(early := h.early + [record]) else h.(final := h.final + [record])
  }

  predicate Terminal(state: RunState) {
    state != Running
  }

  predicate Unsuccessful(state: RunState) {
    state == Failed || state == Abandoned
  }

  /** `next_check_at <= $$NOW`, where a null sorts before every date. */
  predicate CheckDue(root: Root, now: int) {
    root.nextCheckAt.None? || root.nextCheckAt.value <= now
  }

  // Root writes: one filter and one update per builder.

  function FreshRoot(changedAt: int, workerNow: int): Root {
    Root(changedAt, Waiting, None, Some(Max(workerNow, changedAt) + RECHECK_DELAY), None, 0, 0, None, None, None)
  }

  predicate NothingDueMatches(root: Root, now: int) {
    root.status == Waiting && root.claim.None? && CheckDue(root, now)
  }

  predicate LeaseMatches(root: Root, kind: RunKind, now: int) {
    && root.status == Waiting && root.claim.None?
    && Attempts(root, kind) < MAX_ATTEMPTS_PER_KIND
    && CheckDue(root, now)
    && (kind == Early ==> root.earlyRunId.None? && now < root.changedAt + EARLY_CUTOFF)
    && (kind == Final ==> now >= root.changedAt + FINAL_MINIMUM)
  }

  function Leased(root: Root, kind: RunKind, token: Token, now: int): Root {
    var forced := kind == Final && now >= root.changedAt + FINAL_FORCED;
    root.(claim := Some(Claim(token, kind, now + LEASE, None, None, forced)))
  }

  /** The claim carries exactly this token, in exactly this phase. */
  predicate Fenced(root: Root, fence: Fence) {
    root.claim.Some? && root.claim.value.token == fence.token && root.claim.value.attempt == fence.attempt
  }

  predicate CommitMatches(root: Root, fence: Fence, kind: RunKind, now: int) {
    && fence.attempt.None? && Fenced(root, fence)
    && root.claim.value.kind == kind && root.status == Waiting
    && Attempts(root, kind) < MAX_ATTEMPTS_PER_KIND
    && root.claim.value.leaseUntil > now
    && (kind == Early ==> root.earlyRunId.None? && now < root.changedAt + EARLY_CUTOFF)
  }

  function Committed(root: Root, kind: RunKind, now: int): Root
    requires root.claim.Some?
  {
    var attempt := Attempts(root, kind) + 1;
    var claim := root.claim.value.(attempt := Some(attempt), startedAt := Some(now), leaseUntil := now + LEASE);
    if kind == Early then root.(early := attempt, claim := Some(claim))
    else root.(final := attempt, claim := Some(claim))
  }

  predicate LeaseExpired(root: Root, now: int) {
    root.claim.Some? && root.claim.value.leaseUntil <= now
  }

  function FromVerdict(runId: Token, runKind: RunKind, v: Verdict): Published {
    var shown := if |v.devices| <= MAX_ROOT_IMPACTED_DEVICES then v.devices
                 else v.devices[..MAX_ROOT_IMPACTED_DEVICES];
    Published(runId, runKind, v.(devices := shown), |v.devices| + v.devicesOmitted)
  }

  predicate PublishSucceededMatches(root: Root, fence: Fence, kind: RunKind) {
    fence.attempt.Some? && Fenced(root, fence) && root.claim.value.kind == kind && root.status == Waiting
  }

  function PublishedRoot(root: Root, run: Run, token: Token, statusReason: Option<StatusReason>, now: int): Root
    requires run.verdict.Some?
  {
    var result := Some(FromVerdict(token, run.kind, run.verdict.value));
    if run.kind == Final then
      root.(claim := None, finalRunId := Some(token), result := result,
            status := Done, statusReason := statusReason, nextCheckAt := None)
    else
      root.(claim := None, earlyRunId := Some(token), result := result, nextCheckAt := Some(now + RECHECK_DELAY))
  }

  predicate PublishFailedMatches(root: Root, fence: Fence) {
    fence.attempt.Some? && Fenced(root, fence) && root.status == Waiting
  }

  /** What a tick reads before it looks for the reason to exhaust a root with. */
  predicate SpentRoot(root: Root) {
    root.status == Waiting && root.claim.None? && root.final >= MAX_ATTEMPTS_PER_KIND && root.finalRunId.None?
  }

  predicate ExhaustMatches(root: Root, now: int) {
    && root.status == Waiting && root.claim.None?
    && root.final == MAX_ATTEMPTS_PER_KIND && root.finalRunId.None?
    && CheckDue(root, now)
  }

  // Run writes.

  function RunningRun(rootId: RootId, kind: RunKind, record: Commit): Run {
    Run(rootId, kind, record.attempt, Running, record.startedAt, record.startedAt + ATTEMPT_DEADLINE, None, None, None)
  }

  function AbandonedRun(rootId: RootId, kind: RunKind, record: Commit, workerNow: int): Run {
    RunningRun(rootId, kind, record)
      .(state := Abandoned, finishedAt := Some(workerNow), failureReason := Some(LeaseExpiredReason))
  }

  function Finalized(run: Run, outcome: Outcome, now: int): Run {
    match outcome
    case Success(v) => run.(state := Succeeded, verdict := Some(v), finishedAt := Some(now), failureReason := None)
    case Failure(reason) => run.(state := Failed, finishedAt := Some(now), failureReason := Some(reason))
  }

  predicate RunningNow(w: World, token: Token) {
    token in w.runs && w.runs[token].state == Running
  }

  /** The final run whose recorded reason closes an exhausted root: the highest attempt that recorded one. */
  ghost predicate IsLastFailedFinalRun(w: World, token: Token) {
    && token in w.runs && w.runs[token].investigation == w.rootId
    && w.runs[token].kind == Final && w.runs[token].failureReason.Some?
    && forall t | t in w.runs && w.runs[t].investigation == w.rootId && w.runs[t].kind == Final
                  && w.runs[t].failureReason.Some? :: w.runs[t].attempt <= w.runs[token].attempt
  }

  /** The fence names this root, and a committed attempt is numbered 1 to 2; no other fence can be built. */
  predicate FenceBuilt(w: World, fence: Fence) {
    fence.root == w.rootId && (fence.attempt.Some? ==> 1 <= fence.attempt.value <= MAX_ATTEMPTS_PER_KIND)
  }

  /** The record is what a commit of this kind wrote. */
  predicate InLog(h: History, kind: RunKind, record: Commit) {
    1 <= record.attempt <= |Log(h, kind)| && Log(h, kind)[record.attempt - 1] == record
  }

  // One atomic write, or one read, per function. A write whose filter does not match changes nothing.

  function Ensured(w: World, changedAt: int, workerNow: int): World {
    if w.root.None? then w.(root := Some(FreshRoot(changedAt, workerNow))) else w
  }

  function Rechecked(w: World): World {
    if w.root.Some? && NothingDueMatches(w.root.value, w.now) then
      w.(root := Some(w.root.value.(nextCheckAt := Some(w.now + RECHECK_DELAY))))
    else w
  }

  function LeaseTaken(w: World, kind: RunKind, token: Token): World {
    var drawn := w.(issued := w.issued + {token});
    if w.root.Some? && LeaseMatches(w.root.value, kind, w.now) then
      drawn.(root := Some(Leased(w.root.value, kind, token, w.now)), finalLeased := w.finalLeased || kind == Final)
    else drawn
  }

  function ClaimReleased(w: World, fence: Fence): World {
    if w.root.Some? && Fenced(w.root.value, fence) then
      w.(root := Some(w.root.value.(claim := None, nextCheckAt := Some(w.now + RECHECK_DELAY))))
    else w
  }

  function AttemptCommitted(w: World, fence: Fence, kind: RunKind): World {
    if w.root.Some? && CommitMatches(w.root.value, fence, kind, w.now) then
      w.(root := Some(Committed(w.root.value, kind, w.now)),
         history := Logged(w.history, kind, Commit(fence.token, Attempts(w.root.value, kind) + 1, w.now)))
    else w
  }

  function UncommittedRecovered(w: World, fence: Fence): World {
    if w.root.Some? && Fenced(w.root.value, fence) && LeaseExpired(w.root.value, w.now) then
      w.(root := Some(w.root.value.(claim := None)))
    else w
  }

  function ExpiryGated(w: World, fence: Fence): World
    requires fence.attempt.Some?
  {
    if w.root.Some? && Fenced(w.root.value, fence) && LeaseExpired(w.root.value, w.now)
       && w.root.value.claim.value.startedAt.Some? then
      var c := w.root.value.claim.value;
      w.(expired := w.expired + {(c.kind, Commit(c.token, fence.attempt.value, c.startedAt.value))})
    else w
  }

  function TerminalRead(w: World, token: Token): World {
    if token in w.runs && w.runs[token].investigation == w.rootId && Terminal(w.runs[token].state) then
      w.(seen := w.seen[token := w.runs[token]])
    else w
  }

  function SpentRead(w: World): World {
    if w.root.Some? && SpentRoot(w.root.value) then w.(spent := true) else w
  }

  ghost function LastFailureRead(w: World): World {
    if t: Token :| IsLastFailedFinalRun(w, t) then w.(quoted := w.quoted + {w.runs[t].failureReason.value})
    else w.(quoted := w.quoted + {NothingRecorded})
  }

  function SuccessPublished(w: World, fence: Fence, statusReason: Option<StatusReason>): World
    requires fence.token in w.seen && w.seen[fence.token].verdict.Some?
  {
    var run := w.seen[fence.token];
    if w.root.Some? && PublishSucceededMatches(w.root.value, fence, run.kind) then
      w.(root := Some(PublishedRoot(w.root.value, run, fence.token, statusReason, w.now)))
    else w
  }

  function FailurePublished(w: World, fence: Fence): World {
    if w.root.Some? && PublishFailedMatches(w.root.value, fence) then
      w.(root := Some(w.root.value.(claim := None, nextCheckAt := Some(w.now + RECHECK_DELAY))))
    else w
  }

  function RootExhausted(w: World, reason: Reason): World {
    if w.root.Some? && ExhaustMatches(w.root.value, w.now) then
      w.(root := Some(w.root.value.(status := Done, statusReason := Some(ExhaustedReason(reason)),
                                    nextCheckAt := None)))
    else w
  }

  /** The unique `_id` makes an insert of a document that already exists fail and change nothing. */
  function RunInserted(w: World, token: Token, run: Run): World {
    if token !in w.runs then w.(runs := w.runs[token := run]) else w
  }

  function RunFinalized(w: World, token: Token, outcome: Outcome): World {
    if RunningNow(w, token) then w.(runs := w.runs[token := Finalized(w.runs[token], outcome, w.now)]) else w
  }

  function RunAbandoned(w: World, token: Token): World {
    if RunningNow(w, token) then
      w.(runs := w.runs[token := w.runs[token].(state := Abandoned, finishedAt := Some(w.now),
                                                failureReason := Some(LeaseExpiredReason))])
    else w
  }

  /** What the orchestrator promises about a step before it fires it; nothing here looks at the current root. */
  ghost predicate Guard(w: World, s: Step) {
    match s
    case TakeLease(_, token) => token !in w.issued && token !in w.runs
    case Release(fence) => FenceBuilt(w, fence) && fence.attempt.None?
    case CommitAttempt(fence, _) => FenceBuilt(w, fence) && fence.attempt.None?
    case RecoverUncommitted(fence) => FenceBuilt(w, fence) && fence.attempt.None?
    case GateExpired(fence) => FenceBuilt(w, fence) && fence.attempt.Some?
    case ReadLastFailure => w.spent
    case PublishSucceeded(fence, statusReason) =>
      && FenceBuilt(w, fence) && fence.token in w.seen
      && w.seen[fence.token].state == Succeeded && w.seen[fence.token].verdict.Some?
      && fence.attempt == Some(w.seen[fence.token].attempt)
      && (w.seen[fence.token].kind == Final <==> statusReason.Some?)
      && (statusReason.Some? ==> statusReason.value.FinalRunReason?)
    case PublishFailed(fence) =>
      && FenceBuilt(w, fence) && fence.token in w.seen
      && Unsuccessful(w.seen[fence.token].state)
      && fence.attempt == Some(w.seen[fence.token].attempt)
    case Exhaust(reason) => reason in w.quoted
    case InsertRunning(kind, record) => InLog(w.history, kind, record)
    case InsertAbandoned(kind, record, _) => (kind, record) in w.expired
    case Finalize(token, outcome) => token in w.issued && (outcome.Success? ==> ValidVerdict(outcome.verdict))
    case AbandonRunning(token) => exists k, c :: (k, c) in w.expired && c.token == token
    case OtherRun(token, run) => token !in w.issued && run.investigation != w.rootId
                                 && (token in w.runs ==> w.runs[token].investigation != w.rootId)
    case _ => true
  }

  ghost function Fire(w: World, s: Step): World
    requires Guard(w, s)
  {
    match s
    case Tick(delta) => w.(now := w.now + delta)
    case Ensure(changedAt, workerNow) => Ensured(w, changedAt, workerNow)
    case NothingDue => Rechecked(w)
    case TakeLease(kind, token) => LeaseTaken(w, kind, token)
    case Release(fence) => ClaimReleased(w, fence)
    case CommitAttempt(fence, kind) => AttemptCommitted(w, fence, kind)
    case RecoverUncommitted(fence) => UncommittedRecovered(w, fence)
    case GateExpired(fence) => ExpiryGated(w, fence)
    case ReadTerminal(token) => TerminalRead(w, token)
    case ReadSpentRoot => SpentRead(w)
    case ReadLastFailure => LastFailureRead(w)
    case PublishSucceeded(fence, statusReason) => SuccessPublished(w, fence, statusReason)
    case PublishFailed(fence) => FailurePublished(w, fence)
    case Exhaust(reason) => RootExhausted(w, reason)
    case InsertRunning(kind, record) => RunInserted(w, record.token, RunningRun(w.rootId, kind, record))
    case InsertAbandoned(kind, record, workerNow) =>
      RunInserted(w, record.token, AbandonedRun(w.rootId, kind, record, workerNow))
    case Finalize(token, outcome) => RunFinalized(w, token, outcome)
    case AbandonRunning(token) => RunAbandoned(w, token)
    case OtherRun(token, run) => w.(runs := w.runs[token := run])
  }

  ghost predicate Init(w: World) {
    && w.root.None? && w.issued == {} && w.history == History([], []) && !w.finalLeased
    && w.expired == {} && w.seen == map[] && !w.spent && w.quoted == {}
    && forall t | t in w.runs :: w.runs[t].investigation != w.rootId
  }

  ghost predicate Next(w: World, w': World) {
    exists s :: Guard(w, s) && w' == Fire(w, s)
  }

  /** A run of the system: an initial world and any interleaving of steps after it. */
  ghost predicate Behavior(b: seq<World>) {
    b != [] && Init(b[0]) && forall i | 0 < i < |b| :: StepAt(b, i)
  }

  ghost predicate StepAt(b: seq<World>, i: nat)
    requires 0 < i < |b|
  {
    Next(b[i - 1], b[i])
  }
}
