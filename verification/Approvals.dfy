/** Two-person approvals as a step relation: any number of processes request, decide, reopen, refresh, carry and
    invalidate through stale whole-document copies.

    Hashes are injective, so a plan hash is the action list it hashes; an action list carries its own signature, the
    objects it changes and how. */
module Approvals {
  import opened Contracts
  import opened Ordering

  datatype Status = Pending | Approved | Rejected | Expired | Invalidated

  /** A plan's actions: which objects change and how, and the backup-specific details the full hash also covers. */
  datatype Actions = Actions(signature: nat, details: nat)

  /** A restore operation: what was asked for, which nothing changes, and the actions planned for it. */
  datatype Operation = Operation(intent: nat, actions: Actions)

  datatype Approval = Approval(
    operation: nat,
    requestedBy: nat,
    decidedBy: Option<nat>,
    status: Status,
    planHash: Actions,
    intent: nat,
    signature: nat,
    expiresAt: int)

  /** One recorded decision: by whom, on whose request, and on what. */
  datatype Decision = Decision(
    approval: nat,
    decider: nat,
    requester: nat,
    granted: bool,
    intent: nat,
    signature: nat,
    planHash: Actions)

  /** A process's local copy of one stored approval, as stale as it likes. */
  datatype Copy = Copy(id: nat, approval: Approval)

  datatype World = World(
    now: int,
    operations: map<nat, Operation>,
    approvals: map<nat, Approval>,
    copies: map<nat, Copy>,
    decisions: set<Decision>)

  datatype Step =
    | Tick(now: int)
    | CreateOperation(op: nat, operation: Operation)
    | ChangePlan(op: nat, actions: Actions)
    | Insert(id: nat, user: nat, op: nat, actions: Actions, expiresAt: int)
    | Read(p: nat, id: nat)
    | Refresh(p: nat, plan: Option<Actions>)
    | Reopen(p: nat, user: nat, op: nat, actions: Actions, expiresAt: int)
    | Decide(p: nat, decider: nat, granted: bool)
    | Carry(p: nat, prepared: nat, actions: Actions)
    | Supersede(p: nat)
    | ExpirePending

  predicate Live(status: Status) {
    status == Pending || status == Approved
  }

  /** `_refresh`: plan staleness and expiry folded into the status. */
  function Resolved(a: Approval, plan: Option<Actions>, now: int): Status {
    if !Live(a.status) then a.status
    else if plan != Some(a.planHash) then Invalidated
    else if a.expiresAt <= now then Expired
    else a.status
  }

  predicate Guard(w: World, s: Step) {
    match s
    case Tick(now) => w.now <= now
    case CreateOperation(op, _) => op !in w.operations
    case ChangePlan(op, _) => op in w.operations
    // The operation the caller holds may be stale in its actions, never in what was asked for.
    case Insert(id, _, op, _, _) => id !in w.approvals && op in w.operations
    case Read(_, id) => id in w.approvals
    case Refresh(p, _) => p in w.copies
    case Reopen(p, _, op, _, _) =>
      p in w.copies && w.copies[p].approval.operation == op && op in w.operations
      && w.copies[p].approval.status in {Expired, Invalidated}
    case Decide(p, decider, _) =>
      p in w.copies && w.copies[p].approval.status == Pending && w.copies[p].approval.requestedBy != decider
      && w.copies[p].id in w.approvals
    case Carry(p, prepared, actions) =>
      p in w.copies && prepared in w.operations && Live(w.copies[p].approval.status)
      && w.copies[p].approval.intent == w.operations[prepared].intent
      && w.copies[p].approval.signature == actions.signature
    case Supersede(p) => p in w.copies && Live(w.copies[p].approval.status)
    case ExpirePending => true
  }

  /** A whole-document save of the process's copy. */
  function SaveCopy(w: World, p: nat, a: Approval): World
    requires p in w.copies
  {
    var id := w.copies[p].id;
    w.(approvals := w.approvals[id := a], copies := w.copies[p := Copy(id, a)])
  }

  /** `record_decision`: one conditional update on the stored request, still pending and not the decider's own. */
  predicate DecisionApplies(w: World, id: nat, decider: nat) {
    id in w.approvals && w.approvals[id].status == Pending && w.approvals[id].requestedBy != decider
  }

  /** The decision a deciding process records, on the request as stored when it does. */
  function DecisionOf(w: World, id: nat, decider: nat, granted: bool): Decision
    requires DecisionApplies(w, id, decider)
  {
    var a := w.approvals[id];
    Decision(id, decider, a.requestedBy, granted, a.intent, a.signature, a.planHash)
  }

  function Decided(w: World, id: nat, decider: nat, granted: bool): World
    requires DecisionApplies(w, id, decider)
  {
    var a := w.approvals[id];
    w.(approvals := w.approvals[id := a.(status := if granted then Approved else Rejected, decidedBy := Some(decider))],
       decisions := w.decisions + {DecisionOf(w, id, decider, granted)})
  }

  function NewRequest(user: nat, op: nat, intent: nat, actions: Actions, expiresAt: int): Approval {
    Approval(op, user, None, Pending, actions, intent, actions.signature, expiresAt)
  }

  function PendingExpired(a: Approval, now: int): Approval {
    if a.status == Pending && a.expiresAt <= now then a.(status := Expired) else a
  }

  function Fire(w: World, s: Step): World
    requires Guard(w, s)
  {
    match s
    case Tick(now) => w.(now := now)
    case CreateOperation(op, operation) => w.(operations := w.operations[op := operation])
    case ChangePlan(op, actions) => w.(operations := w.operations[op := w.operations[op].(actions := actions)])
    case Insert(id, user, op, actions, expiresAt) =>
      w.(approvals := w.approvals[id := NewRequest(user, op, w.operations[op].intent, actions, expiresAt)])
    case Read(p, id) => w.(copies := w.copies[p := Copy(id, w.approvals[id])])
    case Refresh(p, plan) =>
      var a := w.copies[p].approval;
      var resolved := Resolved(a, plan, w.now);
      if resolved == a.status then w else SaveCopy(w, p, a.(status := resolved))
    case Reopen(p, user, op, actions, expiresAt) =>
      SaveCopy(w, p, NewRequest(user, op, w.operations[op].intent, actions, expiresAt))
    case Decide(p, decider, granted) =>
      if DecisionApplies(w, w.copies[p].id, decider) then Decided(w, w.copies[p].id, decider, granted) else w
    case Carry(p, prepared, actions) =>
      SaveCopy(w, p, w.copies[p].approval.(operation := prepared, planHash := actions))
    case Supersede(p) => SaveCopy(w, p, w.copies[p].approval.(status := Invalidated))
    case ExpirePending => w.(approvals := map id | id in w.approvals :: PendingExpired(w.approvals[id], w.now))
  }

  predicate Init(w: World) {
    w.approvals == map[] && w.copies == map[] && w.decisions == {}
  }

  predicate StepTo(w: World, s: Step, w': World) {
    Guard(w, s) && w' == Fire(w, s)
  }

  /** The step taken from world `i` to the next. */
  predicate StepAt(b: seq<World>, steps: seq<Step>, i: nat)
    requires i < |steps| && |b| == |steps| + 1
  {
    StepTo(b[i], steps[i], b[i + 1])
  }

  /** A run: the worlds passed through, and the step from each to the next. */
  ghost predicate Run(b: seq<World>, steps: seq<Step>) {
    && |b| == |steps| + 1 && Init(b[0])
    && forall i {:trigger StepAt(b, steps, i)} | 0 <= i < |steps| :: StepAt(b, steps, i)
  }

  // What every step keeps.

  /** Somebody other than the requester granted this request, as it asked, for the changes it makes. */
  ghost predicate Granted(a: Approval, id: nat, decisions: set<Decision>) {
    exists d :: d in decisions && GrantsIt(d, a, id)
  }

  predicate GrantsIt(d: Decision, a: Approval, id: nat) {
    && d.approval == id && d.granted && a.decidedBy == Some(d.decider) && d.requester == a.requestedBy
    && d.decider != d.requester && d.intent == a.intent && d.signature == a.signature
  }

  /** An approval, stored or copied: bound to an operation asking for the same, to a plan making the same changes, and
      approved only by a decision of another person on the same intent and changes. */
  ghost predicate Sound(a: Approval, id: nat, w: World) {
    && a.operation in w.operations && w.operations[a.operation].intent == a.intent
    && a.planHash.signature == a.signature
    && (a.status == Approved ==> Granted(a, id, w.decisions))
  }

  ghost predicate Inv(w: World) {
    && (forall id {:trigger Sound(w.approvals[id], id, w)} | id in w.approvals :: Sound(w.approvals[id], id, w))
    && (forall p {:trigger Sound(w.copies[p].approval, w.copies[p].id, w)} | p in w.copies ::
          Sound(w.copies[p].approval, w.copies[p].id, w))
    && (forall d | d in w.decisions :: d.decider != d.requester)
  }

  /** Nothing a later world adds takes soundness away. */
  predicate Extends(w: World, w': World) {
    && w.decisions <= w'.decisions
    && (forall op | op in w.operations :: op in w'.operations && w'.operations[op].intent == w.operations[op].intent)
  }

  lemma SoundLater(a: Approval, id: nat, w: World, w': World)
    requires Sound(a, id, w) && Extends(w, w')
    ensures Sound(a, id, w')
  {
    if a.status == Approved {
      var d :| d in w.decisions && GrantsIt(d, a, id);
      assert d in w'.decisions;
    }
  }

  lemma FireExtends(w: World, s: Step)
    requires Guard(w, s)
    ensures Extends(w, Fire(w, s))
  {
  }

  /** Every stored approval and copy a step leaves is one it found, or the one it writes. */
  lemma KeepsSound(w: World, w': World, written: Approval, at: nat)
    requires Inv(w) && Extends(w, w') && Sound(written, at, w')
    requires forall id | id in w'.approvals ::
               (id in w.approvals && w'.approvals[id] == w.approvals[id]) || (id == at && w'.approvals[id] == written)
    requires forall p | p in w'.copies ::
               (p in w.copies && w'.copies[p] == w.copies[p]) || w'.copies[p] == Copy(at, written)
    requires forall d | d in w'.decisions :: d.decider != d.requester
    ensures Inv(w')
  {
    forall id | id in w'.approvals
      ensures Sound(w'.approvals[id], id, w')
    {
      if id in w.approvals && w'.approvals[id] == w.approvals[id] {
        assert Sound(w.approvals[id], id, w);
        SoundLater(w.approvals[id], id, w, w');
      }
    }
    forall p | p in w'.copies
      ensures Sound(w'.copies[p].approval, w'.copies[p].id, w')
    {
      if p in w.copies && w'.copies[p] == w.copies[p] {
        assert Sound(w.copies[p].approval, w.copies[p].id, w);
        SoundLater(w.copies[p].approval, w.copies[p].id, w, w');
      }
    }
  }

  /** Steps that write no approval. */
  lemma QuietKeeps(w: World, w': World)
    requires Inv(w) && Extends(w, w') && w'.decisions == w.decisions && w'.approvals == w.approvals
    requires forall p | p in w'.copies ::
               (p in w.copies && w'.copies[p] == w.copies[p])
               || (w'.copies[p].id in w.approvals && w'.copies[p].approval == w.approvals[w'.copies[p].id])
    ensures Inv(w')
  {
    forall id | id in w'.approvals
      ensures Sound(w'.approvals[id], id, w')
    {
      assert Sound(w.approvals[id], id, w);
      SoundLater(w.approvals[id], id, w, w');
    }
    forall p | p in w'.copies
      ensures Sound(w'.copies[p].approval, w'.copies[p].id, w')
    {
      var c := w'.copies[p];
      if p in w.copies && c == w.copies[p] {
        assert Sound(w.copies[p].approval, w.copies[p].id, w);
      } else {
        assert Sound(w.approvals[c.id], c.id, w);
      }
      SoundLater(c.approval, c.id, w, w');
    }
  }

  lemma SaveKeeps(w: World, p: nat, a: Approval)
    requires Inv(w) && p in w.copies && Sound(a, w.copies[p].id, w)
    ensures Inv(SaveCopy(w, p, a))
  {
    var w' := SaveCopy(w, p, a);
    SoundLater(a, w.copies[p].id, w, w');
    KeepsSound(w, w', a, w.copies[p].id);
  }

  lemma DecideKeeps(w: World, id: nat, decider: nat, granted: bool)
    requires Inv(w) && DecisionApplies(w, id, decider)
    ensures Inv(Decided(w, id, decider, granted))
  {
    var w' := Decided(w, id, decider, granted);
    var a := w.approvals[id];
    assert Sound(a, id, w);
    var d := DecisionOf(w, id, decider, granted);
    assert granted ==> d in w'.decisions && GrantsIt(d, w'.approvals[id], id);
    KeepsSound(w, w', w'.approvals[id], id);
  }

  lemma ExpireKeeps(w: World)
    requires Inv(w)
    ensures Inv(Fire(w, ExpirePending))
  {
    var w' := Fire(w, ExpirePending);
    forall id | id in w'.approvals
      ensures Sound(w'.approvals[id], id, w')
    {
      assert Sound(w.approvals[id], id, w);
      SoundLater(w.approvals[id], id, w, w');
    }
    forall p | p in w'.copies
      ensures Sound(w'.copies[p].approval, w'.copies[p].id, w')
    {
      assert Sound(w.copies[p].approval, w.copies[p].id, w);
      SoundLater(w.copies[p].approval, w.copies[p].id, w, w');
    }
  }

  lemma StepKeeps(w: World, s: Step)
    requires Inv(w) && Guard(w, s)
    ensures Inv(Fire(w, s))
  {
    FireExtends(w, s);
    match s {
      case Insert(id, user, op, actions, expiresAt) =>
        KeepsSound(w, Fire(w, s), NewRequest(user, op, w.operations[op].intent, actions, expiresAt), id);
      case Refresh(p, plan) =>
        assert Sound(w.copies[p].approval, w.copies[p].id, w);
        if Resolved(w.copies[p].approval, plan, w.now) != w.copies[p].approval.status {
          SaveKeeps(w, p, w.copies[p].approval.(status := Resolved(w.copies[p].approval, plan, w.now)));
        }
      case Reopen(p, user, op, actions, expiresAt) =>
        SaveKeeps(w, p, NewRequest(user, op, w.operations[op].intent, actions, expiresAt));
      case Decide(p, decider, granted) =>
        if DecisionApplies(w, w.copies[p].id, decider) {
          DecideKeeps(w, w.copies[p].id, decider, granted);
        }
      case Carry(p, prepared, actions) =>
        CarryKeeps(w, p, prepared, actions);
      case Supersede(p) =>
        assert Sound(w.copies[p].approval, w.copies[p].id, w);
        SaveKeeps(w, p, w.copies[p].approval.(status := Invalidated));
      case ExpirePending => ExpireKeeps(w);
      case Read(p, id) => QuietKeeps(w, Fire(w, s));
      case Tick(_) => QuietKeeps(w, Fire(w, s));
      case CreateOperation(_, _) => QuietKeeps(w, Fire(w, s));
      case ChangePlan(_, _) => QuietKeeps(w, Fire(w, s));
    }
  }

  /** Moving an approval to the prepared plan keeps who granted what. */
  lemma CarryKeeps(w: World, p: nat, prepared: nat, actions: Actions)
    requires Inv(w) && Guard(w, Carry(p, prepared, actions))
    ensures Inv(Fire(w, Carry(p, prepared, actions)))
  {
    var c := w.copies[p];
    assert Sound(c.approval, c.id, w);
    var moved := c.approval.(operation := prepared, planHash := actions);
    if moved.status == Approved {
      var d :| d in w.decisions && GrantsIt(d, c.approval, c.id);
      assert GrantsIt(d, moved, c.id);
    }
    SaveKeeps(w, p, moved);
  }

  lemma {:induction false} Reached(b: seq<World>, steps: seq<Step>, i: nat)
    requires Run(b, steps) && i < |b|
    ensures Inv(b[i])
  {
    if i > 0 {
      Reached(b, steps, i - 1);
      assert StepAt(b, steps, i - 1);
      StepKeeps(b[i - 1], steps[i - 1]);
    }
  }

  // The two-person rule.

  /** Under any interleaving, a stored approved request was decided by someone other than its requester. */
  lemma ApprovedByAnother(b: seq<World>, steps: seq<Step>, i: nat, id: nat)
    requires Run(b, steps) && i < |b| && id in b[i].approvals && b[i].approvals[id].status == Approved
    ensures b[i].approvals[id].decidedBy.Some?
    ensures b[i].approvals[id].decidedBy.value != b[i].approvals[id].requestedBy
  {
    Reached(b, steps, i);
    assert Sound(b[i].approvals[id], id, b[i]);
    var d :| d in b[i].decisions && GrantsIt(d, b[i].approvals[id], id);
  }

  /** `assert_execution_allowed` on the approval found for the operation, with the plan about to be executed. */
  predicate ExecutionAllowed(a: Approval, op: nat, actions: Actions, now: int) {
    a.operation == op && Resolved(a, Some(actions), now) == Approved
  }

  /** Step `k` carried this request, granted by `d`, onto the plan. */
  predicate CarriedAt(b: seq<World>, steps: seq<Step>, k: nat, id: nat, plan: Actions, d: Decision) {
    && k < |steps| && k < |b| && steps[k].Carry? && steps[k].actions == plan
    && steps[k].p in b[k].copies && b[k].copies[steps[k].p].id == id
    && b[k].copies[steps[k].p].approval.status == Approved
    && GrantsIt(d, b[k].copies[steps[k].p].approval, id)
  }

  /** The decision was on this very plan, or the request it granted was carried onto it. */
  ghost predicate GrantedFor(b: seq<World>, steps: seq<Step>, i: nat, a: Approval, id: nat, d: Decision)
    requires i < |b|
  {
    && d in b[i].decisions && GrantsIt(d, a, id)
    && (d.planHash == a.planHash || exists k :: 0 <= k < i && CarriedAt(b, steps, k, id, a.planHash, d))
  }

  ghost predicate Bound(b: seq<World>, steps: seq<Step>, i: nat, a: Approval, id: nat)
    requires i < |b|
  {
    a.status == Approved ==> exists d :: GrantedFor(b, steps, i, a, id, d)
  }

  ghost predicate AllBound(b: seq<World>, steps: seq<Step>, i: nat)
    requires i < |b|
  {
    && (forall id {:trigger Bound(b, steps, i, b[i].approvals[id], id)} | id in b[i].approvals ::
          Bound(b, steps, i, b[i].approvals[id], id))
    && (forall p {:trigger Bound(b, steps, i, b[i].copies[p].approval, b[i].copies[p].id)} | p in b[i].copies ::
          Bound(b, steps, i, b[i].copies[p].approval, b[i].copies[p].id))
  }

  lemma BoundLater(b: seq<World>, steps: seq<Step>, i: nat, a: Approval, id: nat)
    requires i + 1 < |b| && b[i].decisions <= b[i + 1].decisions && Bound(b, steps, i, a, id)
    ensures Bound(b, steps, i + 1, a, id)
  {
    if a.status == Approved {
      var d :| GrantedFor(b, steps, i, a, id, d);
      if d.planHash != a.planHash {
        var k :| 0 <= k < i && CarriedAt(b, steps, k, id, a.planHash, d);
        assert 0 <= k < i + 1 && CarriedAt(b, steps, k, id, a.planHash, d);
      }
      assert GrantedFor(b, steps, i + 1, a, id, d);
    }
  }

  /** What a step writes to a request is bound again: granted there and then, or carried there and then. */
  lemma WrittenIsBound(b: seq<World>, steps: seq<Step>, i: nat, a: Approval, id: nat)
    requires i < |steps| && |b| == |steps| + 1 && StepAt(b, steps, i) && AllBound(b, steps, i)
    requires Writes(b[i], steps[i], id) == Some(a)
    ensures Bound(b, steps, i + 1, a, id)
  {
    var w, s := b[i], steps[i];
    match s
    case Decide(p, decider, granted) =>
      if granted {
        assert GrantedFor(b, steps, i + 1, a, id, DecisionOf(w, id, decider, granted));
      }
    case Carry(p, prepared, actions) =>
      var c := w.copies[p];
      assert Bound(b, steps, i, c.approval, c.id);
      if a.status == Approved {
        var d :| GrantedFor(b, steps, i, c.approval, id, d);
        assert CarriedAt(b, steps, i, id, actions, d);
        assert GrantedFor(b, steps, i + 1, a, id, d);
      }
    case _ =>
  }

  /** What a step writes to one request, if anything: a new one, a decision, or a process's whole copy. */
  function Writes(w: World, s: Step, id: nat): Option<Approval>
    requires Guard(w, s)
  {
    if Saves(w, s, id).Some? then Saves(w, s, id)
    else if s.Insert? && s.id == id then Some(NewRequest(s.user, s.op, w.operations[s.op].intent, s.actions, s.expiresAt))
    else if s.Decide? && w.copies[s.p].id == id && DecisionApplies(w, id, s.decider)
    then Some(Decided(w, id, s.decider, s.granted).approvals[id])
    else if s.ExpirePending? && id in w.approvals && PendingExpired(w.approvals[id], w.now) != w.approvals[id]
    then Some(PendingExpired(w.approvals[id], w.now))
    else None
  }

  /** The whole document a step saves over one request, if any: the process's copy, changed. */
  function Saves(w: World, s: Step, id: nat): Option<Approval>
    requires Guard(w, s)
  {
    if !SavesCopy(w, s) || w.copies[s.p].id != id then None
    else
      var a := w.copies[s.p].approval;
      match s
      case Refresh(_, plan) => Some(a.(status := Resolved(a, plan, w.now)))
      case Reopen(_, user, op, actions, expiresAt) =>
        Some(NewRequest(user, op, w.operations[op].intent, actions, expiresAt))
      case Carry(_, prepared, actions) => Some(a.(operation := prepared, planHash := actions))
      case Supersede(_) => Some(a.(status := Invalidated))
      case _ => None
  }

  /** A refresh saves only when it changes the status. */
  predicate SavesCopy(w: World, s: Step)
    requires Guard(w, s)
  {
    match s
    case Refresh(p, plan) => Resolved(w.copies[p].approval, plan, w.now) != w.copies[p].approval.status
    case Reopen(_, _, _, _, _) => true
    case Carry(_, _, _) => true
    case Supersede(_) => true
    case _ => false
  }

  /** A step leaves in a request what it writes there, or what was there. */
  lemma WritesExactly(w: World, s: Step, id: nat)
    requires Guard(w, s)
    ensures Writes(w, s, id).Some? ==> id in Fire(w, s).approvals && Fire(w, s).approvals[id] == Writes(w, s, id).value
    ensures Writes(w, s, id).None? ==> (id in Fire(w, s).approvals <==> id in w.approvals)
    ensures Writes(w, s, id).None? && id in w.approvals ==> Fire(w, s).approvals[id] == w.approvals[id]
  {
  }

  /** And in a process's copy what was there, what is stored of a request, or what the process saves. */
  lemma CopiesExactly(w: World, s: Step, p: nat)
    requires Guard(w, s) && p in Fire(w, s).copies
    ensures var c := Fire(w, s).copies[p];
            (p in w.copies && c == w.copies[p])
            || (c.id in w.approvals && c.approval == w.approvals[c.id])
            || Saves(w, s, c.id) == Some(c.approval)
  {
  }

  lemma {:induction false} ReachedBound(b: seq<World>, steps: seq<Step>, i: nat)
    requires Run(b, steps) && i < |b|
    ensures AllBound(b, steps, i)
  {
    if i > 0 {
      ReachedBound(b, steps, i - 1);
      assert StepAt(b, steps, i - 1);
      var w, s := b[i - 1], steps[i - 1];
      FireExtends(w, s);
      forall id | id in b[i].approvals
        ensures Bound(b, steps, i, b[i].approvals[id], id)
      {
        WritesExactly(w, s, id);
        StaysBound(b, steps, i - 1, b[i].approvals[id], id);
      }
      forall p | p in b[i].copies
        ensures Bound(b, steps, i, b[i].copies[p].approval, b[i].copies[p].id)
      {
        CopiesExactly(w, s, p);
        StaysBound(b, steps, i - 1, b[i].copies[p].approval, b[i].copies[p].id);
      }
    }
  }

  /** An approval left over from a world, stored or copied, or written by the step from it. */
  lemma StaysBound(b: seq<World>, steps: seq<Step>, i: nat, a: Approval, id: nat)
    requires i < |steps| && |b| == |steps| + 1 && StepAt(b, steps, i) && AllBound(b, steps, i)
    requires b[i].decisions <= b[i + 1].decisions
    requires || (id in b[i].approvals && a == b[i].approvals[id])
             || (exists p :: p in b[i].copies && b[i].copies[p] == Copy(id, a))
             || Writes(b[i], steps[i], id) == Some(a)
    ensures Bound(b, steps, i + 1, a, id)
  {
    if Writes(b[i], steps[i], id) == Some(a) {
      WrittenIsBound(b, steps, i, a, id);
    } else {
      if id in b[i].approvals && a == b[i].approvals[id] {
        assert Bound(b, steps, i, b[i].approvals[id], id);
      } else {
        var p :| p in b[i].copies && b[i].copies[p] == Copy(id, a);
        assert Bound(b, steps, i, b[i].copies[p].approval, b[i].copies[p].id);
      }
      BoundLater(b, steps, i, a, id);
    }
  }

  /** When execution is allowed on an approval read at any earlier time: the plan is the approved one and not expired,
      and its recorded decider, not its requester, granted this very request, asking for the same and for the same
      changes, on this plan or on one the request was carried from once granted. */
  lemma ExecutionWasGranted(b: seq<World>, steps: seq<Step>, i: nat, p: nat, op: nat, actions: Actions, now: int)
    requires Run(b, steps) && i < |b| && p in b[i].copies
    requires ExecutionAllowed(b[i].copies[p].approval, op, actions, now)
    ensures var a := b[i].copies[p].approval; actions == a.planHash && now < a.expiresAt
    ensures op in b[i].operations
    ensures var c := b[i].copies[p];
            exists d :: d in b[i].decisions && d.granted && d.decider != d.requester
                        && d.approval == c.id && c.approval.decidedBy == Some(d.decider)
                        && d.requester == c.approval.requestedBy
                        && d.intent == b[i].operations[op].intent && d.signature == actions.signature
                        && (d.planHash == actions || exists k :: 0 <= k < i && CarriedAt(b, steps, k, c.id, actions, d))
  {
    Reached(b, steps, i);
    ReachedBound(b, steps, i);
    var c := b[i].copies[p];
    assert Sound(c.approval, c.id, b[i]);
    assert Bound(b, steps, i, c.approval, c.id);
    var d :| GrantedFor(b, steps, i, c.approval, c.id, d);
  }

  /** Every recorded decision was made by a step of this run, on the request as then stored. */
  ghost predicate DecidedAt(b: seq<World>, steps: seq<Step>, k: nat, d: Decision)
    requires k < |steps| && k < |b|
  {
    && steps[k].Decide? && steps[k].decider == d.decider && steps[k].granted == d.granted
    && DecisionApplies(b[k], d.approval, d.decider)
    && b[k].approvals[d.approval].requestedBy == d.requester && b[k].approvals[d.approval].intent == d.intent
    && b[k].approvals[d.approval].signature == d.signature && b[k].approvals[d.approval].planHash == d.planHash
  }

  lemma {:induction false} DecisionsHappened(b: seq<World>, steps: seq<Step>, i: nat, d: Decision) returns (k: nat)
    requires Run(b, steps) && i < |b| && d in b[i].decisions
    ensures k < i && DecidedAt(b, steps, k, d)
  {
    if i > 0 {
      assert StepAt(b, steps, i - 1);
      if d in b[i - 1].decisions {
        k := DecisionsHappened(b, steps, i - 1, d);
      } else {
        k := i - 1;
      }
    } else {
      assert false;
    }
  }

  // What a decision lands on.

  /** A copy shows what was stored at some earlier world of the run. */
  lemma {:induction false} CopiesWereStored(b: seq<World>, steps: seq<Step>, j: nat, p: nat) returns (i: nat)
    requires Run(b, steps) && j < |b| && p in b[j].copies
    ensures i <= j && b[j].copies[p].id in b[i].approvals
    ensures b[i].approvals[b[j].copies[p].id] == b[j].copies[p].approval
  {
    if j == 0 {
      assert false;
    } else {
      assert StepAt(b, steps, j - 1);
      var w, s, c := b[j - 1], steps[j - 1], b[j].copies[p];
      CopiesExactly(w, s, p);
      if p in w.copies && c == w.copies[p] {
        i := CopiesWereStored(b, steps, j - 1, p);
      } else if c.id in w.approvals && c.approval == w.approvals[c.id] {
        i := j - 1;
      } else {
        WritesExactly(w, s, c.id);
        i := j;
      }
    }
  }

  /** A request once stored stays stored. */
  lemma {:induction false} StaysStored(b: seq<World>, steps: seq<Step>, i: nat, j: nat, id: nat)
    requires Run(b, steps) && i <= j < |b| && id in b[i].approvals
    ensures id in b[j].approvals
  {
    if i < j {
      StaysStored(b, steps, i, j - 1, id);
      assert StepAt(b, steps, j - 1);
      WritesExactly(b[j - 1], steps[j - 1], id);
    }
  }

  /** The plan the last whole-document save of the request between the two worlds wrote, if there was one. */
  function LastPlan(b: seq<World>, steps: seq<Step>, i: nat, j: nat, id: nat): Option<Actions>
    requires i <= j <= |steps| && |b| == |steps| + 1
    requires forall k | i <= k < j :: Guard(b[k], steps[k])
    decreases j
  {
    if i == j then None
    else if Saves(b[j - 1], steps[j - 1], id).Some? then Some(Saves(b[j - 1], steps[j - 1], id).value.planHash)
    else LastPlan(b, steps, i, j - 1, id)
  }

  /** The step saves this request with a plan other than the one stored. */
  predicate Rebinds(b: seq<World>, steps: seq<Step>, k: nat, id: nat) {
    && k < |steps| && k < |b| && Guard(b[k], steps[k]) && id in b[k].approvals
    && Saves(b[k], steps[k], id).Some? && Saves(b[k], steps[k], id).value.planHash != b[k].approvals[id].planHash
  }

  predicate PlanAt(b: seq<World>, k: nat, id: nat, plan: Actions) {
    k < |b| && id in b[k].approvals && b[k].approvals[id].planHash == plan
  }

  lemma StepsGuarded(b: seq<World>, steps: seq<Step>)
    requires Run(b, steps)
    ensures forall k | 0 <= k < |steps| :: Guard(b[k], steps[k]) && b[k + 1] == Fire(b[k], steps[k])
  {
    forall k | 0 <= k < |steps|
      ensures Guard(b[k], steps[k]) && b[k + 1] == Fire(b[k], steps[k])
    {
      assert StepAt(b, steps, k);
    }
  }

  /** Nothing but a whole-document save moves a stored request to another plan. */
  lemma {:induction false} StoredPlan(b: seq<World>, steps: seq<Step>, i: nat, j: nat, id: nat)
    requires Run(b, steps) && i <= j < |b| && id in b[i].approvals
    requires forall k | i <= k < j :: Guard(b[k], steps[k])
    ensures id in b[j].approvals
    ensures var last := LastPlan(b, steps, i, j, id);
            b[j].approvals[id].planHash == if last.Some? then last.value else b[i].approvals[id].planHash
  {
    if i < j {
      StoredPlan(b, steps, i, j - 1, id);
      assert StepAt(b, steps, j - 1);
      WritesExactly(b[j - 1], steps[j - 1], id);
    }
  }

  /** The plan read stays the one stored exactly as long as no step saves the request with another. */
  lemma PlanStaysExactly(b: seq<World>, steps: seq<Step>, i: nat, j: nat, id: nat)
    requires Run(b, steps) && i <= j < |b| && id in b[i].approvals
    ensures (forall k | i <= k <= j :: PlanAt(b, k, id, b[i].approvals[id].planHash))
       <==> (forall k | i <= k < j :: !Rebinds(b, steps, k, id))
  {
    StepsGuarded(b, steps);
    var plan := b[i].approvals[id].planHash;
    if forall k | i <= k <= j :: PlanAt(b, k, id, plan) {
      forall k | i <= k < j
        ensures !Rebinds(b, steps, k, id)
      {
        assert PlanAt(b, k, id, plan) && PlanAt(b, k + 1, id, plan);
        WritesExactly(b[k], steps[k], id);
      }
    }
    if forall k | i <= k < j :: !Rebinds(b, steps, k, id) {
      PlanStays(b, steps, i, j, id);
    }
  }

  lemma {:induction false} PlanStays(b: seq<World>, steps: seq<Step>, i: nat, j: nat, id: nat)
    requires Run(b, steps) && i <= j < |b| && id in b[i].approvals
    requires forall k | i <= k < j :: !Rebinds(b, steps, k, id)
    ensures forall k | i <= k <= j :: PlanAt(b, k, id, b[i].approvals[id].planHash)
  {
    if i < j {
      PlanStays(b, steps, i, j - 1, id);
      assert PlanAt(b, j - 1, id, b[i].approvals[id].planHash) && StepAt(b, steps, j - 1);
      assert !Rebinds(b, steps, j - 1, id);
      WritesExactly(b[j - 1], steps[j - 1], id);
    }
  }

  /** Every decision recorded, against the copy its process decided from: that copy shows the request as stored at an
      earlier world, and the decision is on the plan it shows exactly when the last save of the request since then, if
      there was one, wrote that same plan. */
  lemma DecisionLandsOn(b: seq<World>, steps: seq<Step>, j: nat, p: nat, decider: nat, granted: bool) returns (i: nat)
    requires Run(b, steps) && j < |steps| && steps[j] == Decide(p, decider, granted)
    requires p in b[j].copies && DecisionApplies(b[j], b[j].copies[p].id, decider)
    ensures forall k | 0 <= k < |steps| :: Guard(b[k], steps[k])
    ensures var c := b[j].copies[p];
            && i <= j && c.id in b[i].approvals && b[i].approvals[c.id] == c.approval
            && DecisionOf(b[j], c.id, decider, granted) in b[j + 1].decisions
            && var last := LastPlan(b, steps, i, j, c.id);
               DecisionOf(b[j], c.id, decider, granted).planHash == c.approval.planHash
               <==> last.None? || last == Some(c.approval.planHash)
    ensures var c, d := b[j].copies[p].approval, DecisionOf(b[j], b[j].copies[p].id, decider, granted);
            d.planHash == c.planHash ==> d.signature == c.signature
  {
    Reached(b, steps, j);
    assert Sound(b[j].copies[p].approval, b[j].copies[p].id, b[j]);
    assert Sound(b[j].approvals[b[j].copies[p].id], b[j].copies[p].id, b[j]);
    StepsGuarded(b, steps);
    i := CopiesWereStored(b, steps, j, p);
    StoredPlan(b, steps, i, j, b[j].copies[p].id);
    assert StepAt(b, steps, j);
  }

  datatype Trace = Trace(worlds: seq<World>, steps: seq<Step>)

  /** Each step of the trace from `lo` to `hi` is allowed in its world and leads to the next. */
  ghost predicate Follows(t: Trace, lo: nat, hi: nat) {
    hi <= |t.steps| && |t.worlds| == |t.steps| + 1
    && forall i | lo <= i < hi :: StepTo(t.worlds[i], t.steps[i], t.worlds[i + 1])
  }

  lemma TraceIsRun(t: Trace)
    requires |t.worlds| == |t.steps| + 1 && Init(t.worlds[0]) && Follows(t, 0, |t.steps|)
    ensures Run(t.worlds, t.steps)
  {
  }

  /** A decider reads a request for one plan; the plan changes, and the request is found stale and asked for again by
      somebody else before the decision is recorded. */
  function Landing(): Trace {
    var shown, other := Actions(1, 0), Actions(2, 0);
    var before, after := map[1 := Operation(7, shown)], map[1 := Operation(7, other)];
    var asked := Approval(1, 1, None, Pending, shown, 7, 1, 100);
    var stale := asked.(status := Invalidated);
    var again := Approval(1, 2, None, Pending, other, 7, 2, 100);
    var granted := again.(status := Approved, decidedBy := Some(3));
    Trace([World(0, map[], map[], map[], {}),
           World(0, before, map[], map[], {}),
           World(0, before, map[9 := asked], map[], {}),
           World(0, before, map[9 := asked], map[5 := Copy(9, asked)], {}),
           World(0, after, map[9 := asked], map[5 := Copy(9, asked)], {}),
           World(0, after, map[9 := asked], map[5 := Copy(9, asked), 6 := Copy(9, asked)], {}),
           World(0, after, map[9 := stale], map[5 := Copy(9, asked), 6 := Copy(9, stale)], {}),
           World(0, after, map[9 := again], map[5 := Copy(9, asked), 6 := Copy(9, again)], {}),
           World(0, after, map[9 := granted], map[5 := Copy(9, asked), 6 := Copy(9, again)],
                 {Decision(9, 3, 2, true, 7, 2, other)})],
          [CreateOperation(1, Operation(7, shown)), Insert(9, 1, 1, shown, 100), Read(5, 9), ChangePlan(1, other),
           Read(6, 9), Refresh(6, Some(other)), Reopen(6, 2, 1, other, 100), Decide(5, 3, true)])
  }

  lemma LandingBegins()
    ensures Follows(Landing(), 0, 5)
  {
    var t := Landing();
    assert StepTo(t.worlds[0], t.steps[0], t.worlds[1]);
    assert StepTo(t.worlds[1], t.steps[1], t.worlds[2]);
    assert StepTo(t.worlds[2], t.steps[2], t.worlds[3]);
    assert StepTo(t.worlds[3], t.steps[3], t.worlds[4]);
    assert StepTo(t.worlds[4], t.steps[4], t.worlds[5]);
  }

  lemma LandingGoesOn()
    ensures Follows(Landing(), 5, 7)
  {
    var t := Landing();
    assert StepTo(t.worlds[5], t.steps[5], t.worlds[6]);
    assert StepTo(t.worlds[6], t.steps[6], t.worlds[7]);
  }

  lemma LandingEnds()
    ensures Follows(Landing(), 7, 8)
  {
    var t := Landing();
    assert StepTo(t.worlds[7], t.steps[7], t.worlds[8]);
  }

  /** The decision of that run approves a plan its decider never read, which changes other objects. */
  lemma DecisionCanLandOnAnotherPlan()
    ensures var t := Landing();
            && Run(t.worlds, t.steps) && t.steps[7] == Decide(5, 3, true)
            && 5 in t.worlds[7].copies && t.worlds[7].copies[5].id == 9 && DecisionApplies(t.worlds[7], 9, 3)
            && var shown, d := t.worlds[7].copies[5].approval, DecisionOf(t.worlds[7], 9, 3, true);
               d.planHash != shown.planHash && d.signature != shown.signature
               && d in t.worlds[8].decisions && StatusAt(t.worlds, 8, 9, Approved)
  {
    LandingBegins();
    LandingGoesOn();
    LandingEnds();
    TraceIsRun(Landing());
  }

  // Whether a decision stands.

  /** The copy shows the request as it was stored before world `i`. */
  ghost predicate ReadBefore(b: seq<World>, i: nat, c: Copy) {
    exists m :: 0 <= m < i && m < |b| && c.id in b[m].approvals && b[m].approvals[c.id] == c.approval
  }

  predicate SavesAt(b: seq<World>, steps: seq<Step>, k: nat, id: nat) {
    k < |steps| && k < |b| && Guard(b[k], steps[k]) && Saves(b[k], steps[k], id).Some?
  }

  /** The step saves over this request a copy of it read before world `i`. */
  ghost predicate SavesStale(b: seq<World>, steps: seq<Step>, i: nat, k: nat, id: nat) {
    SavesAt(b, steps, k, id) && ReadBefore(b, i, b[k].copies[steps[k].p])
  }

  predicate StatusAt(b: seq<World>, k: nat, id: nat, status: Status) {
    k < |b| && id in b[k].approvals && b[k].approvals[id].status == status
  }

  predicate UnchangedAt(b: seq<World>, i: nat, k: nat, id: nat) {
    i < |b| && k < |b| && id in b[i].approvals && id in b[k].approvals && b[k].approvals[id] == b[i].approvals[id]
  }

  /** A rejection stands exactly as long as nobody saves a copy of the request read before it; the request as rejected,
      its decider with it, then stays just as it is. */
  lemma RejectionStands(b: seq<World>, steps: seq<Step>, i: nat, j: nat, id: nat)
    requires Run(b, steps) && i <= j < |b| && StatusAt(b, i, id, Rejected)
    ensures (forall k | i <= k <= j :: StatusAt(b, k, id, Rejected))
       <==> (forall k | i <= k < j :: !SavesStale(b, steps, i, k, id))
    ensures (forall k | i <= k <= j :: UnchangedAt(b, i, k, id))
       <==> (forall k | i <= k < j :: !SavesStale(b, steps, i, k, id))
  {
    StepsGuarded(b, steps);
    if forall k | i <= k <= j :: UnchangedAt(b, i, k, id) {
      assert forall k | i <= k <= j :: UnchangedAt(b, i, k, id) && StatusAt(b, k, id, Rejected);
    }
    if forall k | i <= k <= j :: StatusAt(b, k, id, Rejected) {
      forall k | i <= k < j
        ensures !SavesStale(b, steps, i, k, id)
      {
        assert StatusAt(b, k, id, Rejected) && StatusAt(b, k + 1, id, Rejected);
        WritesExactly(b[k], steps[k], id);
      }
    }
    if forall k | i <= k < j :: !SavesStale(b, steps, i, k, id) {
      RejectionKept(b, steps, i, j, id);
    }
  }

  lemma {:induction false} RejectionKept(b: seq<World>, steps: seq<Step>, i: nat, j: nat, id: nat)
    requires Run(b, steps) && i <= j < |b| && StatusAt(b, i, id, Rejected)
    requires forall k | i <= k < j :: !SavesStale(b, steps, i, k, id)
    ensures forall k | i <= k <= j :: StatusAt(b, k, id, Rejected) && UnchangedAt(b, i, k, id)
  {
    if i < j {
      RejectionKept(b, steps, i, j - 1, id);
      assert StatusAt(b, j - 1, id, Rejected) && UnchangedAt(b, i, j - 1, id) && StepAt(b, steps, j - 1);
      assert !SavesStale(b, steps, i, j - 1, id);
      WritesExactly(b[j - 1], steps[j - 1], id);
      if SavesAt(b, steps, j - 1, id) {
        var m := CopiesWereStored(b, steps, j - 1, steps[j - 1].p);
        assert m < i || StatusAt(b, m, id, Rejected);
      }
    }
  }

  /** Who asked for what and who decided it: all of a request but where it is bound and how it stands. */
  predicate SameDecision(a: Approval, other: Approval) {
    && a.decidedBy == other.decidedBy && a.requestedBy == other.requestedBy && a.expiresAt == other.expiresAt
    && a.intent == other.intent && a.signature == other.signature
  }

  /** The step undoes the decision stored at world `i`: it reopens the request, or saves a copy read before that world
      which does not carry the decision. */
  ghost predicate Undoes(b: seq<World>, steps: seq<Step>, i: nat, k: nat, id: nat) {
    && SavesAt(b, steps, k, id) && i < |b| && id in b[i].approvals
    && (steps[k].Reopen?
        || (ReadBefore(b, i, b[k].copies[steps[k].p])
            && !SameDecision(b[k].copies[steps[k].p].approval, b[i].approvals[id])))
  }

  /** The decision stored at world `i` is still there: decided, by the same person, on the same request. */
  predicate DecisionKept(b: seq<World>, i: nat, k: nat, id: nat) {
    && i < |b| && k < |b| && id in b[i].approvals && id in b[k].approvals
    && b[k].approvals[id].status != Pending && SameDecision(b[k].approvals[id], b[i].approvals[id])
  }

  /** An approval stands exactly as long as nobody reopens the request or saves a copy of it read before which does not
      carry the approval. While it stands it can only run out: it is approved, expired or invalidated, never rejected. */
  lemma ApprovalStands(b: seq<World>, steps: seq<Step>, i: nat, j: nat, id: nat)
    requires Run(b, steps) && i <= j < |b| && StatusAt(b, i, id, Approved)
    ensures (forall k | i <= k <= j :: DecisionKept(b, i, k, id))
       <==> (forall k | i <= k < j :: !Undoes(b, steps, i, k, id))
    ensures (forall k | i <= k < j :: !Undoes(b, steps, i, k, id))
        ==> forall k | i <= k <= j :: id in b[k].approvals && b[k].approvals[id].status in {Approved, Expired, Invalidated}
  {
    StepsGuarded(b, steps);
    if forall k | i <= k <= j :: DecisionKept(b, i, k, id) {
      forall k | i <= k < j
        ensures !Undoes(b, steps, i, k, id)
      {
        assert DecisionKept(b, i, k, id) && DecisionKept(b, i, k + 1, id);
        WritesExactly(b[k], steps[k], id);
      }
    }
    if forall k | i <= k < j :: !Undoes(b, steps, i, k, id) {
      ApprovalKept(b, steps, i, j, id);
    }
  }

  lemma {:induction false} ApprovalKept(b: seq<World>, steps: seq<Step>, i: nat, j: nat, id: nat)
    requires Run(b, steps) && i <= j < |b| && StatusAt(b, i, id, Approved)
    requires forall k | i <= k < j :: !Undoes(b, steps, i, k, id)
    ensures forall k | i <= k <= j ::
              DecisionKept(b, i, k, id) && b[k].approvals[id].status in {Approved, Expired, Invalidated}
  {
    if i < j {
      ApprovalKept(b, steps, i, j - 1, id);
      assert DecisionKept(b, i, j - 1, id) && StepAt(b, steps, j - 1);
      WritesExactly(b[j - 1], steps[j - 1], id);
      if SavesAt(b, steps, j - 1, id) {
        var m := CopiesWereStored(b, steps, j - 1, steps[j - 1].p);
        assert m < i || DecisionKept(b, i, m, id);
        assert !Undoes(b, steps, i, j - 1, id);
        if StatusAt(b, m, id, Pending) {
          PendingIsUndecided(b, steps, m, id);
        }
        Reached(b, steps, i);
        assert Sound(b[i].approvals[id], id, b[i]);
      }
    }
  }

  /** A request waiting for a decision records no decider. */
  lemma {:induction false} PendingIsUndecided(b: seq<World>, steps: seq<Step>, j: nat, id: nat)
    requires Run(b, steps) && StatusAt(b, j, id, Pending)
    ensures b[j].approvals[id].decidedBy.None?
  {
    if j > 0 {
      assert StepAt(b, steps, j - 1);
      WritesExactly(b[j - 1], steps[j - 1], id);
      if Writes(b[j - 1], steps[j - 1], id).None? {
        PendingIsUndecided(b, steps, j - 1, id);
      } else if steps[j - 1].Carry? {
        var m := CopiesWereStored(b, steps, j - 1, steps[j - 1].p);
        PendingIsUndecided(b, steps, m, id);
      }
    }
  }

  /** The step asks for a decision again: it reopens the request, or carries a pending copy read before world `i`. */
  ghost predicate AsksAgain(b: seq<World>, steps: seq<Step>, i: nat, k: nat, id: nat) {
    && SavesAt(b, steps, k, id)
    && (steps[k].Reopen?
        || (steps[k].Carry? && b[k].copies[steps[k].p].approval.status == Pending
            && ReadBefore(b, i, b[k].copies[steps[k].p])))
  }

  predicate NotPendingAt(b: seq<World>, k: nat, id: nat) {
    k < |b| && id in b[k].approvals && b[k].approvals[id].status != Pending
  }

  /** A decided request is never put to a decision again exactly as long as nobody reopens it or carries a copy of it
      that was read, still pending, before the decision. */
  lemma NeverAskedAgain(b: seq<World>, steps: seq<Step>, i: nat, j: nat, id: nat)
    requires Run(b, steps) && i <= j < |b| && (StatusAt(b, i, id, Approved) || StatusAt(b, i, id, Rejected))
    ensures (forall k | i <= k <= j :: NotPendingAt(b, k, id))
       <==> (forall k | i <= k < j :: !AsksAgain(b, steps, i, k, id))
    ensures (forall k | i <= k < j :: !AsksAgain(b, steps, i, k, id))
        ==> forall k, decider: nat | i <= k <= j :: !DecisionApplies(b[k], id, decider)
  {
    StepsGuarded(b, steps);
    if forall k | i <= k <= j :: NotPendingAt(b, k, id) {
      forall k | i <= k < j
        ensures !AsksAgain(b, steps, i, k, id)
      {
        assert NotPendingAt(b, k, id) && NotPendingAt(b, k + 1, id);
        WritesExactly(b[k], steps[k], id);
      }
    }
    if forall k | i <= k < j :: !AsksAgain(b, steps, i, k, id) {
      NoneAsksAgain(b, steps, i, j, id);
      forall k, decider: nat | i <= k <= j
        ensures !DecisionApplies(b[k], id, decider)
      {
        assert NotPendingAt(b, k, id);
      }
    }
  }

  lemma {:induction false} NoneAsksAgain(b: seq<World>, steps: seq<Step>, i: nat, j: nat, id: nat)
    requires Run(b, steps) && i <= j < |b| && NotPendingAt(b, i, id)
    requires forall k | i <= k < j :: !AsksAgain(b, steps, i, k, id)
    ensures forall k | i <= k <= j :: NotPendingAt(b, k, id)
  {
    if i < j {
      NoneAsksAgain(b, steps, i, j - 1, id);
      assert NotPendingAt(b, j - 1, id) && StepAt(b, steps, j - 1);
      WritesExactly(b[j - 1], steps[j - 1], id);
      if SavesAt(b, steps, j - 1, id) {
        var m := CopiesWereStored(b, steps, j - 1, steps[j - 1].p);
        assert m < i || NotPendingAt(b, m, id);
        assert !AsksAgain(b, steps, i, j - 1, id);
      }
    }
  }

  /** A process that read a request while it was pending carries it onto the prepared plan after it was rejected; the
      rejected request is then pending again, and another administrator approves it. */
  function Overturning(): Trace {
    var plan, prepared := Actions(1, 0), Actions(1, 1);
    var one := map[1 := Operation(7, plan)];
    var both := map[1 := Operation(7, plan), 2 := Operation(7, prepared)];
    var asked := Approval(1, 1, None, Pending, plan, 7, 1, 100);
    var rejected := asked.(status := Rejected, decidedBy := Some(3));
    var carried := asked.(operation := 2, planHash := prepared);
    var granted := carried.(status := Approved, decidedBy := Some(4));
    var no, yes := Decision(9, 3, 1, false, 7, 1, plan), Decision(9, 4, 1, true, 7, 1, prepared);
    Trace([World(0, map[], map[], map[], {}),
           World(0, one, map[], map[], {}),
           World(0, both, map[], map[], {}),
           World(0, both, map[9 := asked], map[], {}),
           World(0, both, map[9 := asked], map[5 := Copy(9, asked)], {}),
           World(0, both, map[9 := asked], map[5 := Copy(9, asked), 6 := Copy(9, asked)], {}),
           World(0, both, map[9 := rejected], map[5 := Copy(9, asked), 6 := Copy(9, asked)], {no}),
           World(0, both, map[9 := carried], map[5 := Copy(9, carried), 6 := Copy(9, asked)], {no}),
           World(0, both, map[9 := carried], map[5 := Copy(9, carried), 6 := Copy(9, asked), 8 := Copy(9, carried)], {no}),
           World(0, both, map[9 := granted], map[5 := Copy(9, carried), 6 := Copy(9, asked), 8 := Copy(9, carried)],
                 {no, yes})],
          [CreateOperation(1, Operation(7, plan)), CreateOperation(2, Operation(7, prepared)),
           Insert(9, 1, 1, plan, 100), Read(5, 9), Read(6, 9), Decide(6, 3, false), Carry(5, 2, prepared), Read(8, 9),
           Decide(8, 4, true)])
  }

  lemma OverturningBegins()
    ensures Follows(Overturning(), 0, 5)
  {
    var t := Overturning();
    assert StepTo(t.worlds[0], t.steps[0], t.worlds[1]);
    assert StepTo(t.worlds[1], t.steps[1], t.worlds[2]);
    assert StepTo(t.worlds[2], t.steps[2], t.worlds[3]);
    assert StepTo(t.worlds[3], t.steps[3], t.worlds[4]);
    assert StepTo(t.worlds[4], t.steps[4], t.worlds[5]);
  }

  lemma OverturningGoesOn()
    ensures Follows(Overturning(), 5, 7)
  {
    var t := Overturning();
    assert StepTo(t.worlds[5], t.steps[5], t.worlds[6]);
    assert StepTo(t.worlds[6], t.steps[6], t.worlds[7]);
  }

  lemma OverturningEnds()
    ensures Follows(Overturning(), 7, 9)
  {
    var t := Overturning();
    assert StepTo(t.worlds[7], t.steps[7], t.worlds[8]);
    assert StepTo(t.worlds[8], t.steps[8], t.worlds[9]);
  }

  /** In that run the first decision does not stand: a stale save undoes the rejection, and a second decision approves. */
  lemma RejectionCanBeOverturned()
    ensures var t := Overturning();
            && Run(t.worlds, t.steps)
            && StatusAt(t.worlds, 6, 9, Rejected) && SavesStale(t.worlds, t.steps, 6, 6, 9)
            && AsksAgain(t.worlds, t.steps, 6, 6, 9)
            && StatusAt(t.worlds, 9, 9, Approved) && t.worlds[9].approvals[9].decidedBy == Some(4)
  {
    OverturningBegins();
    OverturningGoesOn();
    OverturningEnds();
    var t := Overturning();
    TraceIsRun(t);
    assert t.worlds[4].approvals[9] == t.worlds[6].copies[5].approval;
  }

  /** A process refreshes the copy it read before the request was approved, once the request has run out. */
  function Erasing(): Trace {
    var plan := Actions(1, 0);
    var one := map[1 := Operation(7, plan)];
    var asked := Approval(1, 1, None, Pending, plan, 7, 1, 100);
    var granted := asked.(status := Approved, decidedBy := Some(3));
    var expired := asked.(status := Expired);
    var yes := Decision(9, 3, 1, true, 7, 1, plan);
    Trace([World(0, map[], map[], map[], {}),
           World(0, one, map[], map[], {}),
           World(0, one, map[9 := asked], map[], {}),
           World(0, one, map[9 := asked], map[5 := Copy(9, asked)], {}),
           World(0, one, map[9 := asked], map[5 := Copy(9, asked), 6 := Copy(9, asked)], {}),
           World(0, one, map[9 := granted], map[5 := Copy(9, asked), 6 := Copy(9, asked)], {yes}),
           World(100, one, map[9 := granted], map[5 := Copy(9, asked), 6 := Copy(9, asked)], {yes}),
           World(100, one, map[9 := expired], map[5 := Copy(9, expired), 6 := Copy(9, asked)], {yes})],
          [CreateOperation(1, Operation(7, plan)), Insert(9, 1, 1, plan, 100), Read(5, 9), Read(6, 9),
           Decide(6, 3, true), Tick(100), Refresh(5, Some(plan))])
  }

  lemma ErasingBegins()
    ensures Follows(Erasing(), 0, 4)
  {
    var t := Erasing();
    assert StepTo(t.worlds[0], t.steps[0], t.worlds[1]);
    assert StepTo(t.worlds[1], t.steps[1], t.worlds[2]);
    assert StepTo(t.worlds[2], t.steps[2], t.worlds[3]);
    assert StepTo(t.worlds[3], t.steps[3], t.worlds[4]);
  }

  lemma ErasingEnds()
    ensures Follows(Erasing(), 4, 7)
  {
    var t := Erasing();
    assert StepTo(t.worlds[4], t.steps[4], t.worlds[5]);
    assert StepTo(t.worlds[5], t.steps[5], t.worlds[6]);
    assert StepTo(t.worlds[6], t.steps[6], t.worlds[7]);
  }

  /** In that run nobody asks again, and the approval recorded is erased: expired, and decided by nobody. */
  lemma ApprovalCanBeErased()
    ensures var t := Erasing();
            && Run(t.worlds, t.steps)
            && StatusAt(t.worlds, 5, 9, Approved) && t.worlds[5].approvals[9].decidedBy == Some(3)
            && (forall k | 5 <= k < 7 :: !AsksAgain(t.worlds, t.steps, 5, k, 9)) && Undoes(t.worlds, t.steps, 5, 6, 9)
            && StatusAt(t.worlds, 7, 9, Expired) && t.worlds[7].approvals[9].decidedBy.None?
  {
    ErasingBegins();
    ErasingEnds();
    var t := Erasing();
    TraceIsRun(t);
    assert t.worlds[4].approvals[9] == t.worlds[6].copies[5].approval;
  }

  /** A process that read an earlier approval of the request carries it over a later rejection: the request is approved,
      and by the earlier decider, with nobody asking again. */
  function Reviving(): Trace {
    var plan, prepared := Actions(1, 0), Actions(1, 1);
    var asked := Approval(1, 1, None, Pending, plan, 7, 1, 100);
    var granted := asked.(status := Approved, decidedBy := Some(3));
    var expired := granted.(status := Expired);
    var again := asked.(expiresAt := 200);
    var rejected := again.(status := Rejected, decidedBy := Some(4));
    var revived := granted.(planHash := prepared);
    var yes, no := Decision(9, 3, 1, true, 7, 1, plan), Decision(9, 4, 1, false, 7, 1, plan);
    var w0 := World(0, map[], map[], map[], {});
    var w1 := w0.(operations := w0.operations[1 := Operation(7, plan)]);
    var w2 := w1.(approvals := w1.approvals[9 := asked]);
    var w3 := w2.(copies := w2.copies[6 := Copy(9, asked)]);
    var w4 := w3.(approvals := w3.approvals[9 := granted], decisions := w3.decisions + {yes});
    var w5 := w4.(copies := w4.copies[5 := Copy(9, granted)]);
    var w6 := w5.(copies := w5.copies[6 := Copy(9, granted)]);
    var w7 := w6.(now := 100);
    var w8 := w7.(approvals := w7.approvals[9 := expired], copies := w7.copies[6 := Copy(9, expired)]);
    var w9 := w8.(approvals := w8.approvals[9 := again], copies := w8.copies[6 := Copy(9, again)]);
    var w10 := w9.(approvals := w9.approvals[9 := rejected], decisions := w9.decisions + {no});
    var w11 := w10.(approvals := w10.approvals[9 := revived], copies := w10.copies[5 := Copy(9, revived)]);
    Trace([w0, w1, w2, w3, w4, w5, w6, w7, w8, w9, w10, w11],
          [CreateOperation(1, Operation(7, plan)), Insert(9, 1, 1, plan, 100), Read(6, 9), Decide(6, 3, true), Read(5, 9),
           Read(6, 9), Tick(100), Refresh(6, Some(plan)), Reopen(6, 1, 1, plan, 200), Decide(6, 4, false),
           Carry(5, 1, prepared)])
  }

  lemma RevivingBegins()
    ensures Follows(Reviving(), 0, 4)
  {
    var t := Reviving();
    assert StepTo(t.worlds[0], t.steps[0], t.worlds[1]);
    assert StepTo(t.worlds[1], t.steps[1], t.worlds[2]);
    assert StepTo(t.worlds[2], t.steps[2], t.worlds[3]);
    assert StepTo(t.worlds[3], t.steps[3], t.worlds[4]);
  }

  lemma RevivingGoesOn()
    ensures Follows(Reviving(), 4, 7)
  {
    var t := Reviving();
    assert StepTo(t.worlds[4], t.steps[4], t.worlds[5]);
    assert StepTo(t.worlds[5], t.steps[5], t.worlds[6]);
    assert StepTo(t.worlds[6], t.steps[6], t.worlds[7]);
  }

  lemma RevivingTurns()
    ensures Follows(Reviving(), 7, 9)
  {
    var t := Reviving();
    assert StepTo(t.worlds[7], t.steps[7], t.worlds[8]);
    assert StepTo(t.worlds[8], t.steps[8], t.worlds[9]);
  }

  lemma RevivingEnds()
    ensures Follows(Reviving(), 9, 11)
  {
    var t := Reviving();
    assert StepTo(t.worlds[9], t.steps[9], t.worlds[10]);
    assert StepTo(t.worlds[10], t.steps[10], t.worlds[11]);
  }

  /** In that run a rejection turns into the earlier approval, and nobody asked again. */
  lemma RejectionCanTurnBack()
    ensures var t := Reviving();
            && Run(t.worlds, t.steps)
            && StatusAt(t.worlds, 10, 9, Rejected) && t.worlds[10].approvals[9].decidedBy == Some(4)
            && !AsksAgain(t.worlds, t.steps, 10, 10, 9) && SavesStale(t.worlds, t.steps, 10, 10, 9)
            && StatusAt(t.worlds, 11, 9, Approved) && t.worlds[11].approvals[9].decidedBy == Some(3)
  {
    RevivingBegins();
    RevivingGoesOn();
    RevivingTurns();
    RevivingEnds();
    var t := Reviving();
    TraceIsRun(t);
    assert t.worlds[6].approvals[9] == t.worlds[10].copies[5].approval;
  }
}
