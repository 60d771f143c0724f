/** What each step of the approval protocol rests on and what it leaves of the request it writes. */
module ApprovalWrites {
  import opened Contracts
  import opened Ordering
  import opened Approvals

  /** A plan may be executed exactly when the approval found for its operation is approved, of this very plan, and not run
      out: one that runs out now is too late. */
  lemma ExecutionExactly(a: Approval, op: nat, actions: Actions, now: int)
    ensures ExecutionAllowed(a, op, actions, now)
       <==> a.operation == op && a.status == Approved && a.planHash == actions && now < a.expiresAt
  {
  }

  /** A process may decide only a request its copy shows pending and not of its own asking; and it is decided exactly when
      the stored request is so too, on that request, by this decider and at once. */
  lemma DecisionExactly(w: World, p: nat, decider: nat, granted: bool)
    requires Guard(w, Decide(p, decider, granted))
    ensures w.copies[p].approval.status == Pending && w.copies[p].approval.requestedBy != decider
    ensures var id, after := w.copies[p].id, Fire(w, Decide(p, decider, granted));
            var a := w.approvals[id];
            if a.status == Pending && a.requestedBy != decider
            then && after.approvals
                    == w.approvals[id := a.(status := if granted then Approved else Rejected, decidedBy := Some(decider))]
                 && after.decisions
                    == w.decisions + {Decision(id, decider, a.requestedBy, granted, a.intent, a.signature, a.planHash)}
                 && after.copies == w.copies
            else after == w
  {
  }

  /** Such a request can be decided by anybody else. */
  lemma PendingCanBeDecided(w: World, p: nat, decider: nat, granted: bool)
    requires p in w.copies && w.copies[p].id in w.approvals && w.copies[p].approval == w.approvals[w.copies[p].id]
    requires w.copies[p].approval.status == Pending && w.copies[p].approval.requestedBy != decider
    ensures Guard(w, Decide(p, decider, granted))
    ensures Fire(w, Decide(p, decider, granted)).approvals[w.copies[p].id].decidedBy == Some(decider)
  {
  }

  /** A refresh leaves a request that is over as it is; a live one it finds invalidated when the plan is gone or another,
      else expired when its time has come, and saves its copy only when that is news. */
  lemma RefreshExactly(w: World, p: nat, plan: Option<Actions>)
    requires Guard(w, Refresh(p, plan))
    ensures var c, after := w.copies[p], Fire(w, Refresh(p, plan));
            var stale := c.approval.status in {Pending, Approved} && plan != Some(c.approval.planHash);
            var late := c.approval.status in {Pending, Approved} && !stale && c.approval.expiresAt <= w.now;
            if !stale && !late then after == w
            else
              var a := c.approval.(status := if stale then Invalidated else Expired);
              after == w.(approvals := w.approvals[c.id := a], copies := w.copies[p := Copy(c.id, a)])
  {
  }

  /** A reopened request asks afresh, in place of one that had run out or gone stale, for the same operation. */
  lemma ReopenExactly(w: World, p: nat, user: nat, op: nat, actions: Actions, expiresAt: int)
    requires Guard(w, Reopen(p, user, op, actions, expiresAt))
    ensures w.copies[p].approval.status in {Expired, Invalidated} && w.copies[p].approval.operation == op
    ensures var id := w.copies[p].id;
            var a := Fire(w, Reopen(p, user, op, actions, expiresAt)).approvals[id];
            && a.operation == op && a.requestedBy == user && a.decidedBy.None? && a.status == Pending
            && a.planHash == actions && a.signature == actions.signature && a.intent == w.operations[op].intent
            && a.expiresAt == expiresAt
            && Fire(w, Reopen(p, user, op, actions, expiresAt)).copies[p] == Copy(id, a)
  {
  }

  /** A request is carried to a prepared operation only while it is live, asks for the same intent and makes the same
      changes; only where it is bound moves. */
  lemma CarryExactly(w: World, p: nat, prepared: nat, actions: Actions)
    requires Guard(w, Carry(p, prepared, actions))
    ensures var c, after := w.copies[p], Fire(w, Carry(p, prepared, actions));
            && c.approval.status in {Pending, Approved}
            && c.approval.intent == w.operations[prepared].intent && c.approval.signature == actions.signature
            && after.approvals == w.approvals[c.id := c.approval.(operation := prepared, planHash := actions)]
  {
  }

  /** A superseded request is invalidated, and nothing else of it changes. */
  lemma SupersedeExactly(w: World, p: nat)
    requires Guard(w, Supersede(p))
    ensures w.copies[p].approval.status in {Pending, Approved}
    ensures Fire(w, Supersede(p)).approvals
         == w.approvals[w.copies[p].id := w.copies[p].approval.(status := Invalidated)]
  {
  }

  /** The periodic expiry takes exactly the pending requests whose time has come, an approved one never. */
  lemma ExpiryExactly(w: World, id: nat)
    requires id in w.approvals
    ensures var a, after := w.approvals[id], Fire(w, ExpirePending).approvals;
            && id in after
            && (a.status == Pending && a.expiresAt <= w.now ==> after[id] == a.(status := Expired))
            && (a.status != Pending || w.now < a.expiresAt ==> after[id] == a)
  {
  }
}
