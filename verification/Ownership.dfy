// Who owns what: leases, lock rows and pending intents stay consistent through every operation.
module Ownership {
  import opened Options
  import opened Records
  import opened Control

  // The attempt holds the lease row of its key and both lock rows of its environment, all in agreement.
  ghost predicate Owns(db: Db, a: Text) {
    a in db.attempts && db.attempts[a].key in db.leases &&
    db.leases[db.attempts[a].key].attemptId == a &&
    HoldsLocks(db.locks, db.attempts[a], db.leases[db.attempts[a].key], a, db.leases[db.attempts[a].key].fence)
  }

  ghost predicate Holds(db: Db, a: Text, fence: nat) {
    Owns(db, a) && db.leases[db.attempts[a].key].fence == fence
  }

  // The fence check of every operation that presents one.
  lemma CurrentOwnerOwns(db: Db, a: Text, fence: nat, now: int)
    requires a in db.attempts
    ensures OwnerRefusal(db.leases, db.locks, db.attempts[a], a, fence, now).None? <==>
            Holds(db, a, fence) && db.leases[db.attempts[a].key].expiresAt > now
  {
  }

  // ---------- Rows refer to each other ----------

  predicate SameOrigin(run: Run, row: Attempt) {
    run.repository == row.workflow.run.repository && run.gitRef == row.workflow.run.gitRef
  }

  predicate LeaseRowAgrees(db: Db, k: Key) requires k in db.leases {
    var lease := db.leases[k];
    lease.attemptId in db.attempts && db.attempts[lease.attemptId].key == k && lease.fence <= db.sequence &&
    lease.candidateSha == db.attempts[lease.attemptId].candidateSha &&
    SameOrigin(lease.run, db.attempts[lease.attemptId])
  }

  predicate LockRowAgrees(db: Db, r: Resource) requires r in db.locks {
    var lock := db.locks[r];
    lock.attemptId in db.attempts && lock.fence <= db.sequence &&
    var row := db.attempts[lock.attemptId];
    lock.environment == row.environment && lock.candidateSha == row.candidateSha &&
    SameOrigin(lock.workflow.run, row) &&
    lock.workflow.runnerLabel == row.workflow.runnerLabel &&
    (r == StripeAccount(row.environment.accountId) || r == SupabaseProject(row.environment.projectRef))
  }

  ghost predicate RowsAgree(db: Db) {
    (forall k :: k in db.leases ==> LeaseRowAgrees(db, k)) &&
    (forall r :: r in db.locks ==> LockRowAgrees(db, r)) &&
    IntentsHaveAttempts(db)
  }

  ghost predicate IntentsHaveAttempts(db: Db) {
    forall i :: i in db.intents ==> db.intents[i].attemptId in db.attempts
  }

  ghost predicate UnexpiredRowsAreOwned(db: Db) {
    (forall k :: k in db.leases && db.leases[k].expiresAt > db.clock ==> Owns(db, db.leases[k].attemptId)) &&
    (forall r :: r in db.locks && db.locks[r].expiresAt > db.clock ==> Owns(db, db.locks[r].attemptId))
  }

  ghost predicate OwnershipAgrees(db: Db) {
    UnexpiredRowsAreOwned(db) &&
    (forall i :: i in db.intents && i !in db.receipts ==> Owns(db, db.intents[i].attemptId)) &&
    (forall a :: a in db.attempts && db.attempts[a].cleanup == Done ==> !Owns(db, a))
  }

  ghost predicate OwnershipInv(db: Db) {
    RowsAgree(db) && OwnershipAgrees(db)
  }

  // ---------- The ways an operation can touch ownership ----------

  ghost predicate Later(db: Db, after: Db) {
    db.clock <= after.clock && db.sequence <= after.sequence
  }

  // An intent its attempt's owner may begin: by the current fence, outside recovery, in the row's own identity.
  ghost predicate BegunByOwner(db: Db, intent: Intent) {
    Holds(db, intent.attemptId, intent.fence) &&
    var row := db.attempts[intent.attemptId];
    row.phase != Rechecking && !db.leases[row.key].recoveryOnly &&
    intent.candidateSha == row.candidateSha && intent.workflow == row.workflow &&
    intent.environment == row.environment &&
    intent.accountId == row.environment.accountId
  }

  // Ownership tables untouched; intents and receipts only added.
  ghost predicate LeavesOwnership(db: Db, after: Db) {
    Later(db, after) && after.attempts == db.attempts && after.leases == db.leases && after.locks == db.locks &&
    (forall i :: i in db.intents ==> i in after.intents && after.intents[i] == db.intents[i]) &&
    (forall i :: i in after.intents && i !in db.intents ==> BegunByOwner(db, after.intents[i])) &&
    (forall i :: i in db.receipts ==> i in after.receipts)
  }

  predicate SameIdentityRow(row: Attempt, changed: Attempt) {
    changed.key == row.key && changed.candidateSha == row.candidateSha && changed.workflow == row.workflow &&
    changed.environment == row.environment && changed.createdAt == row.createdAt && changed.cleanup == row.cleanup
  }

  // An owner rewrites its own row, its lease and both its locks.
  ghost predicate RewritesOwnership(db: Db, after: Db, a: Text, changed: Attempt, lease: Lease) {
    Later(db, after) && Owns(db, a) && after.intents == db.intents && after.receipts == db.receipts &&
    SameIdentityRow(db.attempts[a], changed) && after.attempts == db.attempts[a := changed] &&
    lease.attemptId == a && lease.fence <= after.sequence && lease.candidateSha == changed.candidateSha &&
    SameOrigin(lease.run, changed) &&
    after.leases == db.leases[changed.key := lease] &&
    var lock := Lock(a, lease.fence, changed.candidateSha, Workflow(lease.run, changed.workflow.runnerLabel),
                     changed.environment, lease.expiresAt);
    after.locks == db.locks[StripeAccount(changed.environment.accountId) := lock]
                           [SupabaseProject(changed.environment.projectRef) := lock]
  }

  lemma RewriteMovesNoOtherOwner(db: Db, after: Db, a: Text, changed: Attempt, lease: Lease, b: Text)
    requires RewritesOwnership(db, after, a, changed, lease)
    ensures Owns(after, a) && after.leases[after.attempts[a].key] == lease
    ensures Owns(after, b) <==> Owns(db, b)
    ensures b != a && Owns(db, b) ==> after.leases[after.attempts[b].key] == db.leases[db.attempts[b].key]
  {
  }

  lemma LeavingMovesNoOwner(db: Db, after: Db, a: Text)
    requires LeavesOwnership(db, after)
    ensures Owns(after, a) <==> Owns(db, a)
  {
  }

  lemma LeavingKeepsLeaseRow(db: Db, after: Db, k: Key)
    requires k in db.leases && LeaseRowAgrees(db, k) && db.sequence <= after.sequence
    requires after.attempts == db.attempts && after.leases == db.leases
    ensures LeaseRowAgrees(after, k)
  {
  }

  lemma LeavingKeepsLockRow(db: Db, after: Db, r: Resource)
    requires r in db.locks && LockRowAgrees(db, r) && db.sequence <= after.sequence
    requires after.attempts == db.attempts && after.locks == db.locks
    ensures LockRowAgrees(after, r)
  {
  }

  lemma LeavingKeepsRows(db: Db, after: Db)
    requires RowsAgree(db) && LeavesOwnership(db, after)
    ensures RowsAgree(after)
  {
    hide HoldsLocks, LeaseRowAgrees, LockRowAgrees;
    forall k | k in after.leases ensures LeaseRowAgrees(after, k) {
      assert LeaseRowAgrees(db, k);
      LeavingKeepsLeaseRow(db, after, k);
    }
    forall r | r in after.locks ensures LockRowAgrees(after, r) {
      assert LockRowAgrees(db, r);
      LeavingKeepsLockRow(db, after, r);
    }
  }

  lemma LeavingKeepsOwnership(db: Db, after: Db)
    requires OwnershipInv(db) && LeavesOwnership(db, after)
    ensures OwnershipInv(after)
  {
    forall a ensures Owns(after, a) <==> Owns(db, a) {
      LeavingMovesNoOwner(db, after, a);
    }
    hide Owns, HoldsLocks;
    LeavingKeepsRows(db, after);
    hide LeaseRowAgrees, LockRowAgrees;
  }

  lemma RewritingKeepsRows(db: Db, after: Db, a: Text, changed: Attempt, lease: Lease)
    requires RowsAgree(db) && RewritesOwnership(db, after, a, changed, lease)
    ensures RowsAgree(after)
  {
    forall k | k in after.leases ensures LeaseRowAgrees(after, k) {
      if k != changed.key { assert LeaseRowAgrees(db, k); }
    }
    forall r | r in after.locks ensures LockRowAgrees(after, r) {
      if r in db.locks { assert LockRowAgrees(db, r); }
    }
  }

  lemma RewritingKeepsOwnership(db: Db, after: Db, a: Text, changed: Attempt, lease: Lease)
    requires OwnershipInv(db) && RewritesOwnership(db, after, a, changed, lease)
    ensures OwnershipInv(after)
  {
    hide LeaseRowAgrees, LockRowAgrees, HoldsLocks, LockMatches;
    RewritingKeepsRows(db, after, a, changed, lease);
    forall b ensures Owns(after, b) <==> Owns(db, b) {
      RewriteMovesNoOtherOwner(db, after, a, changed, lease, b);
    }
  }

  // ---------- Admission ----------

  // The rows an admission overwrites have expired, and their owners have nothing pending.
  ghost predicate Vacant(db: Db, now: int, key: Key, environment: Environment) {
    (key in db.leases ==>
      db.leases[key].expiresAt <= now &&
      (NamesLease(db.locks, StripeAccount(environment.accountId), db.leases[key]) ||
       NamesLease(db.locks, SupabaseProject(environment.projectRef), db.leases[key]))) &&
    (StripeAccount(environment.accountId) in db.locks ==>
       db.locks[StripeAccount(environment.accountId)].expiresAt <= now) &&
    (SupabaseProject(environment.projectRef) in db.locks ==>
       db.locks[SupabaseProject(environment.projectRef)].expiresAt <= now) &&
    (forall b :: b in PriorOwners(db, key, environment) ==>
       b in db.attempts && !HasInFlight(db.intents, db.receipts, b))
  }

  ghost predicate AdmitsOwner(db: Db, after: Db, now: int, q: AdmissionRequest, fence: nat) {
    db.clock <= now && after.clock == now && db.sequence < fence && fence == after.sequence &&
    q.attemptId !in db.attempts && now < now + q.ttl &&
    after.intents == db.intents && after.receipts == db.receipts &&
    after.attempts ==
      Retired(db.attempts, PriorOwners(db, q.key, q.environment), now)[q.attemptId := FreshRow(q, now)] &&
    after.leases == db.leases[q.key := FreshLease(q, fence, now)] &&
    var lock := Lock(q.attemptId, fence, q.candidateSha, q.workflow, q.environment, now + q.ttl);
    after.locks ==
      db.locks[StripeAccount(q.environment.accountId) := lock][SupabaseProject(q.environment.projectRef) := lock]
  }

  // Everyone whose lease or lock row an admission takes had let it expire, had no intent pending, and is settled.
  lemma PriorOwnersAreIdle(db: Db, now: int, q: AdmissionRequest, recovered: set<Text>, id: Text)
    requires RowsAgree(db) && AdmissionRefusal(db, now, q, recovered, id).None?
    ensures Vacant(db, now, q.key, q.environment)
    ensures forall b :: b in PriorOwners(db, q.key, q.environment) ==> MayReplace(db, b, recovered)
  {
  }

  lemma AdmissionMakesAnOwner(db: Db, after: Db, now: int, q: AdmissionRequest, fence: nat)
    requires AdmitsOwner(db, after, now, q, fence)
    ensures Owns(after, q.attemptId)
  {
    assert after.attempts[q.attemptId] == FreshRow(q, now);
  }

  lemma AdmissionSparesOthers(db: Db, after: Db, now: int, q: AdmissionRequest, fence: nat, b: Text)
    requires AdmitsOwner(db, after, now, q, fence)
    requires Owns(db, b) && b !in PriorOwners(db, q.key, q.environment)
    ensures Owns(after, b)
  {
    var row := db.attempts[b];
    assert after.attempts[b] == row;
    assert row.key != q.key;
    assert StripeAccount(row.environment.accountId) != StripeAccount(q.environment.accountId);
    assert SupabaseProject(row.environment.projectRef) != SupabaseProject(q.environment.projectRef);
  }

  lemma AdmissionEndsPriorOwners(db: Db, after: Db, now: int, q: AdmissionRequest, fence: nat, b: Text)
    requires RowsAgree(db) && AdmitsOwner(db, after, now, q, fence)
    requires b != q.attemptId && Owns(after, b)
    ensures Owns(db, b) && b !in PriorOwners(db, q.key, q.environment)
    ensures after.leases[db.attempts[b].key] == db.leases[db.attempts[b].key]
  {
    var row, changed := db.attempts[b], after.attempts[b];
    assert SameIdentityRow(row.(cleanup := changed.cleanup), changed);
    assert row.key != q.key;
    assert StripeAccount(row.environment.accountId) != StripeAccount(q.environment.accountId);
    assert SupabaseProject(row.environment.projectRef) != SupabaseProject(q.environment.projectRef);
    if b in PriorOwners(db, q.key, q.environment) {
      PriorOwnerTouchesRow(db, q.key, q.environment, b);
    }
  }

  // An admission makes the new attempt an owner and ends the ownership of exactly the attempts it takes rows from.
  lemma AdmissionMovesOwners(db: Db, after: Db, now: int, q: AdmissionRequest, fence: nat, b: Text)
    requires RowsAgree(db) && AdmitsOwner(db, after, now, q, fence)
    ensures Owns(after, b) <==> b == q.attemptId || (Owns(db, b) && b !in PriorOwners(db, q.key, q.environment))
    ensures b != q.attemptId && Owns(after, b) ==> after.leases[db.attempts[b].key] == db.leases[db.attempts[b].key]
  {
    hide *;
    if b == q.attemptId {
      AdmissionMakesAnOwner(db, after, now, q, fence);
    } else {
      if Owns(after, b) {
        AdmissionEndsPriorOwners(db, after, now, q, fence, b);
      }
      if Owns(db, b) && b !in PriorOwners(db, q.key, q.environment) {
        AdmissionSparesOthers(db, after, now, q, fence, b);
      }
    }
  }

  lemma PriorOwnerTouchesRow(db: Db, key: Key, environment: Environment, b: Text)
    requires RowsAgree(db) && b in PriorOwners(db, key, environment)
    ensures b in db.attempts
    ensures db.attempts[b].key == key || db.attempts[b].environment.accountId == environment.accountId ||
            db.attempts[b].environment.projectRef == environment.projectRef
  {
    if key in db.leases && db.leases[key].attemptId == b {
      assert LeaseRowAgrees(db, key);
    } else {
      assert forall r :: r in db.locks ==> LockRowAgrees(db, r);
    }
  }

  lemma AdmittingKeepsRows(db: Db, after: Db, now: int, q: AdmissionRequest, fence: nat)
    requires RowsAgree(db) && AdmitsOwner(db, after, now, q, fence)
    ensures RowsAgree(after)
  {
    forall k | k in after.leases ensures LeaseRowAgrees(after, k) {
      if k != q.key { assert LeaseRowAgrees(db, k); }
    }
    forall r | r in after.locks ensures LockRowAgrees(after, r) {
      if r in db.locks { assert LockRowAgrees(db, r); }
    }
  }

  lemma AdmittingKeepsUnexpiredRows(db: Db, after: Db, now: int, q: AdmissionRequest, fence: nat)
    requires RowsAgree(db) && UnexpiredRowsAreOwned(db)
    requires AdmitsOwner(db, after, now, q, fence) && Vacant(db, now, q.key, q.environment)
    ensures UnexpiredRowsAreOwned(after)
  {
    AdmissionMovesOwners(db, after, now, q, fence, q.attemptId);
    forall k | k in after.leases && after.leases[k].expiresAt > now ensures Owns(after, after.leases[k].attemptId) {
      if k != q.key {
        assert LeaseRowAgrees(db, k);
        UnexpiredOwnerSurvives(db, after, now, q, fence, db.leases[k].attemptId);
      }
    }
    forall r | r in after.locks && after.locks[r].expiresAt > now ensures Owns(after, after.locks[r].attemptId) {
      if r != StripeAccount(q.environment.accountId) && r != SupabaseProject(q.environment.projectRef) {
        assert LockRowAgrees(db, r);
        UnexpiredOwnerSurvives(db, after, now, q, fence, db.locks[r].attemptId);
      }
    }
  }

  lemma AdmittingKeepsOwnership(db: Db, after: Db, now: int, q: AdmissionRequest, fence: nat)
    requires OwnershipInv(db) && AdmitsOwner(db, after, now, q, fence) && Vacant(db, now, q.key, q.environment)
    ensures OwnershipInv(after)
  {
    hide LeaseRowAgrees, LockRowAgrees, HoldsLocks, LockMatches;
    AdmittingKeepsRows(db, after, now, q, fence);
    AdmittingKeepsUnexpiredRows(db, after, now, q, fence);
    var priors := PriorOwners(db, q.key, q.environment);
    forall b ensures Owns(after, b) <==> b == q.attemptId || (Owns(db, b) && b !in priors) {
      AdmissionMovesOwners(db, after, now, q, fence, b);
    }
    assert forall i :: i in after.intents && i !in after.receipts ==> db.intents[i].attemptId !in priors;
  }

  lemma UnexpiredOwnerSurvives(db: Db, after: Db, now: int, q: AdmissionRequest, fence: nat, b: Text)
    requires RowsAgree(db) && Vacant(db, now, q.key, q.environment) && AdmitsOwner(db, after, now, q, fence)
    requires Owns(db, b) && db.leases[db.attempts[b].key].expiresAt > now
    ensures Owns(after, b)
  {
    UnexpiredOwnerIsNotPrior(db, now, q.key, q.environment, b);
    AdmissionMovesOwners(db, after, now, q, fence, b);
  }

  lemma UnexpiredOwnerIsNotPrior(db: Db, now: int, key: Key, environment: Environment, b: Text)
    requires RowsAgree(db) && Vacant(db, now, key, environment)
    requires Owns(db, b) && db.leases[db.attempts[b].key].expiresAt > now
    ensures b !in PriorOwners(db, key, environment)
  {
    if b in PriorOwners(db, key, environment) {
      PriorOwnerTouchesRow(db, key, environment, b);
    }
  }

  // ---------- Release ----------

  ghost predicate ReleasesOwnership(db: Db, after: Db, a: Text, changed: Attempt) {
    Later(db, after) && Owns(db, a) && !HasInFlight(db.intents, db.receipts, a) &&
    after.intents == db.intents && after.receipts == db.receipts &&
    changed == db.attempts[a].(cleanup := Done, updatedAt := changed.updatedAt) && Terminal(changed.phase) &&
    after.attempts == db.attempts[a := changed] &&
    after.leases == db.leases - {changed.key} &&
    after.locks == db.locks - {StripeAccount(changed.environment.accountId),
                               SupabaseProject(changed.environment.projectRef)}
  }

  lemma ReleaseMovesNoOtherOwner(db: Db, after: Db, a: Text, changed: Attempt, b: Text)
    requires ReleasesOwnership(db, after, a, changed)
    ensures Owns(after, b) <==> Owns(db, b) && b != a
  {
  }

  lemma ReleasingKeepsRows(db: Db, after: Db, a: Text, changed: Attempt)
    requires RowsAgree(db) && ReleasesOwnership(db, after, a, changed)
    ensures RowsAgree(after)
  {
    forall k | k in after.leases ensures LeaseRowAgrees(after, k) {
      assert LeaseRowAgrees(db, k);
    }
    forall r | r in after.locks ensures LockRowAgrees(after, r) {
      assert LockRowAgrees(db, r);
    }
  }

  lemma ReleasingKeepsOwnership(db: Db, after: Db, a: Text, changed: Attempt)
    requires OwnershipInv(db) && ReleasesOwnership(db, after, a, changed)
    ensures OwnershipInv(after)
  {
    hide HoldsLocks, LockMatches;
    ReleasingKeepsRows(db, after, a, changed);
    forall b ensures Owns(after, b) <==> Owns(db, b) && b != a {
      ReleaseMovesNoOtherOwner(db, after, a, changed, b);
    }
  }

  // ---------- Moving an attempt ----------

  ghost predicate MovesAttempt(db: Db, after: Db, a: Text, changed: Attempt) {
    Later(db, after) && a in db.attempts && after.intents == db.intents && after.receipts == db.receipts &&
    SameIdentityRow(db.attempts[a], changed) && after.attempts == db.attempts[a := changed] &&
    after.leases == db.leases && after.locks == db.locks
  }

  lemma MovingMovesNoOwner(db: Db, after: Db, a: Text, changed: Attempt, b: Text)
    requires MovesAttempt(db, after, a, changed)
    ensures Owns(after, b) <==> Owns(db, b)
  {
  }

  lemma MovingKeepsRows(db: Db, after: Db, a: Text, changed: Attempt)
    requires RowsAgree(db) && MovesAttempt(db, after, a, changed)
    ensures RowsAgree(after)
  {
    forall k | k in after.leases ensures LeaseRowAgrees(after, k) {
      assert LeaseRowAgrees(db, k);
    }
    forall r | r in after.locks ensures LockRowAgrees(after, r) {
      assert LockRowAgrees(db, r);
    }
  }

  lemma MovingKeepsOwnership(db: Db, after: Db, a: Text, changed: Attempt)
    requires OwnershipInv(db) && MovesAttempt(db, after, a, changed)
    ensures OwnershipInv(after)
    ensures forall b :: Owns(after, b) <==> Owns(db, b)
  {
    hide HoldsLocks, LockMatches;
    forall b ensures Owns(after, b) <==> Owns(db, b) {
      MovingMovesNoOwner(db, after, a, changed, b);
    }
    hide Owns;
    MovingKeepsRows(db, after, a, changed);
    hide LeaseRowAgrees, LockRowAgrees;
  }
}
