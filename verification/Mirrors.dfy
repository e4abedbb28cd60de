// Lock rows mirror the lease row of the owner they name, as long as it has one.
module Mirrors {
  import opened Records
  import opened Control
  import opened Runs
  import opened Ownership
  import opened Changes
  import opened Safety

  // The lease row at the key of the lock's owner still names that owner under the lock's fence.
  predicate Backed(db: Db, r: Resource) requires r in db.locks {
    var lock := db.locks[r];
    lock.attemptId in db.attempts && db.attempts[lock.attemptId].key in db.leases &&
    db.leases[db.attempts[lock.attemptId].key].attemptId == lock.attemptId &&
    db.leases[db.attempts[lock.attemptId].key].fence == lock.fence
  }

  // A lock that its owner's lease row backs has the expiry and the run of that row.
  predicate LockMirrors(db: Db, r: Resource) requires r in db.locks {
    Backed(db, r) ==>
      var lock, lease := db.locks[r], db.leases[db.attempts[db.locks[r].attemptId].key];
      lock.expiresAt == lease.expiresAt && lock.workflow.run == lease.run
  }

  ghost predicate LocksMirror(db: Db) {
    forall r :: r in db.locks ==> LockMirrors(db, r)
  }

  lemma RewriteKeepsMirrors(db: Db, after: Db, a: Text, row: Attempt, lease: Lease)
    requires RowsAgree(db) && LocksMirror(db) && RewritesOwnership(db, after, a, row, lease)
    ensures LocksMirror(after)
  {
    hide HoldsLocks, LeaseRowAgrees;
    forall r | r in after.locks ensures LockMirrors(after, r) {
      if r in db.locks { assert LockRowAgrees(db, r) && LockMirrors(db, r); }
    }
  }

  lemma EntryKeepsMirrors(db: Db, after: Db, now: int, q: AdmissionRequest)
    requires RowsAgree(db) && LocksMirror(db) && AdmitsOwner(db, after, now, q, after.sequence)
    ensures LocksMirror(after)
  {
    hide HoldsLocks, PriorOwners;
    forall r | r in after.locks ensures LockMirrors(after, r) {
      if r in db.locks { assert LockRowAgrees(db, r) && LockMirrors(db, r); }
    }
  }

  lemma ReleaseKeepsMirrors(db: Db, after: Db, a: Text, row: Attempt)
    requires RowsAgree(db) && LocksMirror(db) && ReleasesOwnership(db, after, a, row)
    ensures LocksMirror(after)
  {
    hide HoldsLocks, LeaseRowAgrees;
    forall r | r in after.locks ensures LockMirrors(after, r) {
      assert LockRowAgrees(db, r) && LockMirrors(db, r);
    }
  }

  lemma MoveKeepsMirrors(db: Db, after: Db, a: Text, row: Attempt)
    requires LocksMirror(db) && MovesAttempt(db, after, a, row)
    ensures LocksMirror(after)
  {
    forall r | r in after.locks ensures LockMirrors(after, r) {
      assert LockMirrors(db, r);
    }
  }

  lemma LeaveKeepsMirrors(db: Db, after: Db)
    requires LocksMirror(db) && LeavesOwnership(db, after)
    ensures LocksMirror(after)
  {
    forall r | r in after.locks ensures LockMirrors(after, r) {
      assert LockMirrors(db, r);
    }
  }

  lemma ChangeKeepsMirrors(db: Db, after: Db, change: Change)
    requires RowsAgree(db) && LocksMirror(db) && Makes(db, after, change)
    ensures LocksMirror(after)
  {
    hide RowsAgree, LocksMirror, LeavesOwnership, MovesAttempt, RewritesOwnership, AdmitsOwner, ReleasesOwnership,
         Vacant, SettlesOnlyUnexpired, SameLedgers, Owns;
    match change
    case Leave => LeaveKeepsMirrors(db, after);
    case MoveRow(a, row) => MoveKeepsMirrors(db, after, a, row);
    case Rewrite(a, row, lease, _) => RewriteKeepsMirrors(db, after, a, row, lease);
    case Enter(now, q) => EntryKeepsMirrors(db, after, now, q);
    case Release(a, row) => ReleaseKeepsMirrors(db, after, a, row);
  }

  lemma {:induction false} RunKeepsMirrors(db: Db, ops: seq<Op>)
    requires OwnershipInv(db) && LocksMirror(db)
    ensures LocksMirror(AfterAll(db, ops))
    decreases |ops|
  {
    hide Apply, ChangeOf, Makes, RowsAgree, OwnershipAgrees, LocksMirror;
    if ops == [] {
    } else {
      EveryOperationMakesItsChange(db, ops[0]);
      ChangeKeepsMirrors(db, Apply(db, ops[0]), ChangeOf(db, ops[0]));
      EveryOperationKeepsOwnership(db, ops[0]);
      RunKeepsMirrors(Apply(db, ops[0]), ops[1..]);
    }
  }

  // In every state that can be reached.
  lemma ReachableLocksMirror(ops: seq<Op>)
    ensures LocksMirror(AfterAll(EMPTY, ops))
  {
    hide Sound, AfterAll;
    EmptyIsSound();
    SoundHasOwnership(EMPTY);
    RunKeepsMirrors(EMPTY, ops);
  }

  // So an attempt owns its rows exactly when its key's lease row and both its lock rows name it under one fence.
  lemma OwnsExactlyWhenNamed(db: Db, a: Text)
    requires RowsAgree(db) && LocksMirror(db) && a in db.attempts
    ensures var row := db.attempts[a];
            var account, project := StripeAccount(row.environment.accountId),
              SupabaseProject(row.environment.projectRef);
            Owns(db, a) <==>
            row.key in db.leases && account in db.locks && project in db.locks &&
            var lease := db.leases[row.key];
            lease.attemptId == db.locks[account].attemptId == db.locks[project].attemptId == a &&
            lease.fence == db.locks[account].fence == db.locks[project].fence
  {
    var row := db.attempts[a];
    forall r | r in db.locks ensures LockRowAgrees(db, r) && LockMirrors(db, r) {
    }
  }
}
