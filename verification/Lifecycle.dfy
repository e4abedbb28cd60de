// The phases of an attempt, and what its fence and its intents say about them.
module Lifecycle {
  import opened Options
  import opened Records
  import opened Control
  import opened Ownership
  import opened Changes
  import opened History

  // `a` is the attempt named by the lease row of its own key.
  predicate Leases(db: Db, a: Text) {
    a in db.attempts && db.attempts[a].key in db.leases && db.leases[db.attempts[a].key].attemptId == a
  }

  ghost predicate AttemptStanding(db: Db, a: Text) requires a in db.attempts {
    AdmissionFence(db.history, a).Some? && db.attempts[a].key.projectRef == db.attempts[a].environment.projectRef &&
    (Leases(db, a) ==>
      var row, lease := db.attempts[a], db.leases[db.attempts[a].key];
      (row.phase == Collecting ==> AdmissionFence(db.history, a) == Some(lease.fence)) &&
      (lease.recoveryOnly ==> row.phase != Collecting && row.phase != Collected))
  }

  // No intent is newer than the fence its attempt now holds, and while the attempt is rechecking all are older.
  predicate IntentStanding(db: Db, intent: Intent) {
    intent.fence <= db.sequence &&
    (Leases(db, intent.attemptId) ==>
      var row := db.attempts[intent.attemptId];
      intent.fence <= db.leases[row.key].fence && (row.phase == Rechecking ==> intent.fence < db.leases[row.key].fence))
  }

  ghost predicate LifecycleInv(db: Db) {
    (forall a :: a in db.attempts ==> AttemptStanding(db, a)) &&
    (forall i :: i in db.intents ==> IntentStanding(db, db.intents[i]))
  }

  // How an attempt's row may change in one operation.
  predicate RowMayBecome(before: Attempt, after: Attempt) {
    after.key == before.key && after.candidateSha == before.candidateSha && after.workflow == before.workflow &&
    after.environment == before.environment && after.createdAt == before.createdAt &&
    (after.phase == before.phase || MayMove(before.phase, after.phase) ||
     (after.phase == Rechecking && before.phase != Collecting)) &&
    (before.cleanup == Done ==> after == before.(updatedAt := after.updatedAt))
  }

  lemma {:induction false} StrangerHasNoAdmission(history: seq<LeaseEvent>, a: Text)
    requires forall i :: 0 <= i < |history| ==> history[i].attemptId != a
    ensures AdmissionFence(history, a).None?
  {
    if history == [] {
    } else {
      StrangerHasNoAdmission(history[..|history| - 1], a);
    }
  }

  lemma AdmissionAfterEvent(history: seq<LeaseEvent>, e: LeaseEvent, a: Text)
    ensures AdmissionFence(history + [e], a) ==
            if AdmissionFence(history, a).Some? then AdmissionFence(history, a)
            else if e.attemptId == a && Admits(e.kind) then Some(e.fence) else None
  {
    AppendDropsBack(history, e);
  }

  lemma MoveKeepsLifecycle(db: Db, after: Db, a: Text, row: Attempt)
    requires LifecycleInv(db) && Makes(db, after, MoveRow(a, row))
    ensures LifecycleInv(after)
  {
    hide HoldsLocks, AdmissionFence;
    forall b | b in after.attempts ensures AttemptStanding(after, b) {
      assert AttemptStanding(db, b);
    }
    forall i | i in after.intents ensures IntentStanding(after, after.intents[i]) {
      assert IntentStanding(db, db.intents[i]);
    }
  }

  lemma LeaveKeepsLifecycle(db: Db, after: Db)
    requires LifecycleInv(db) && RowsAgree(db) && Makes(db, after, Leave)
    ensures LifecycleInv(after)
  {
    hide HoldsLocks, AdmissionFence, LockRowAgrees;
    forall b | b in after.attempts ensures AttemptStanding(after, b) {
      assert AttemptStanding(db, b);
    }
    forall i | i in after.intents ensures IntentStanding(after, after.intents[i]) {
      if i in db.intents {
        assert IntentStanding(db, db.intents[i]);
      } else {
        assert BegunByOwner(db, after.intents[i]);
        assert LeaseRowAgrees(db, db.attempts[after.intents[i].attemptId].key);
      }
    }
  }

  lemma RewriteKeepsLifecycle(db: Db, after: Db, a: Text, row: Attempt, lease: Lease, kind: LeaseEventKind)
    requires LifecycleInv(db) && Makes(db, after, Rewrite(a, row, lease, kind))
    ensures LifecycleInv(after)
  {
    hide HoldsLocks, AdmissionFence;
    forall b | b in after.attempts ensures AttemptStanding(after, b) {
      assert AttemptStanding(db, b) && AttemptStanding(db, a);
      AdmissionAfterEvent(db.history, EventOf(kind, row.key, lease), b);
    }
    forall i | i in after.intents ensures IntentStanding(after, after.intents[i]) {
      assert IntentStanding(db, db.intents[i]);
    }
  }

  lemma EnterKeepsLifecycle(db: Db, after: Db, now: int, q: AdmissionRequest)
    requires LifecycleInv(db) && RowsAgree(db) && HistoryInv(db) && Makes(db, after, Enter(now, q))
    ensures LifecycleInv(after)
  {
    hide HoldsLocks, AdmissionFence, LockRowAgrees, WellFormed, Replay, Vacant, LeaseRowAgrees;
    forall b | b in after.attempts ensures AttemptStanding(after, b) {
      if b in db.attempts { assert AttemptStanding(db, b); }
      StrangerHasNoAdmission(db.history, q.attemptId);
      AdmissionAfterEvent(db.history,
                          EventOf(if q.key in db.leases then Takeover else Acquired, q.key,
                                  FreshLease(q, after.sequence, now)), b);
    }
    forall i | i in after.intents ensures IntentStanding(after, after.intents[i]) {
      assert IntentStanding(db, db.intents[i]);
    }
  }

  lemma ReleaseKeepsLifecycle(db: Db, after: Db, a: Text, row: Attempt)
    requires LifecycleInv(db) && Makes(db, after, Release(a, row))
    ensures LifecycleInv(after)
  {
    hide HoldsLocks, AdmissionFence;
    forall b | b in after.attempts ensures AttemptStanding(after, b) {
      assert AttemptStanding(db, b);
      AdmissionAfterEvent(db.history, EventOf(Released, row.key, db.leases[row.key]), b);
    }
    forall i | i in after.intents ensures IntentStanding(after, after.intents[i]) {
      assert IntentStanding(db, db.intents[i]);
    }
  }

  lemma ChangeKeepsLifecycle(db: Db, after: Db, change: Change)
    requires LifecycleInv(db) && RowsAgree(db) && HistoryInv(db) && Makes(db, after, change)
    ensures LifecycleInv(after)
  {
    hide LifecycleInv, RowsAgree, HistoryInv, Makes;
    match change
    case Leave => LeaveKeepsLifecycle(db, after);
    case MoveRow(a, row) => MoveKeepsLifecycle(db, after, a, row);
    case Rewrite(a, row, lease, kind) => RewriteKeepsLifecycle(db, after, a, row, lease, kind);
    case Enter(now, q) => EnterKeepsLifecycle(db, after, now, q);
    case Release(a, row) => ReleaseKeepsLifecycle(db, after, a, row);
  }

  lemma ChangeMovesRow(db: Db, after: Db, change: Change, a: Text)
    requires OwnershipInv(db) && Makes(db, after, change) && a in db.attempts
    ensures a in after.attempts && RowMayBecome(db.attempts[a], after.attempts[a])
  {
    hide HoldsLocks, LeaseRowAgrees, LockRowAgrees, Vacant, PriorOwners;
  }
}
