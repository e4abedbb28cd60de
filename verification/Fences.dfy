// A fence that has lost its ownership never acts again.
module Fences {
  import opened Records
  import opened Control
  import opened Runs
  import opened Ownership
  import opened Changes

  // `fence` has been issued, but `a` does not hold its lease and both its locks with it.
  ghost predicate Lost(db: Db, a: Text, fence: nat) {
    fence <= db.sequence && !Holds(db, a, fence)
  }

  lemma ChangeKeepsLoss(db: Db, after: Db, change: Change, a: Text, fence: nat)
    requires RowsAgree(db) && Makes(db, after, change) && Lost(db, a, fence)
    ensures Lost(after, a, fence)
  {
    hide HoldsLocks, LeaseRowAgrees, LockRowAgrees;
    match change
    case Leave =>
    case MoveRow(b, row) => MovingMovesNoOwner(db, after, b, row, a);
    case Rewrite(b, row, lease, _) => RewriteMovesNoOtherOwner(db, after, b, row, lease, a);
    case Enter(now, q) => AdmissionMovesOwners(db, after, now, q, after.sequence, a);
    case Release(b, row) => ReleaseMovesNoOtherOwner(db, after, b, row, a);
  }

  lemma {:induction false} RunKeepsLoss(db: Db, ops: seq<Op>, a: Text, fence: nat)
    requires OwnershipInv(db) && Lost(db, a, fence)
    ensures Lost(AfterAll(db, ops), a, fence)
    decreases |ops|
  {
    hide Lost, Apply, ChangeOf, Makes, OwnershipAgrees, LeaseRowAgrees, LockRowAgrees;
    if ops == [] {
    } else {
      EveryOperationMakesItsChange(db, ops[0]);
      ChangeKeepsLoss(db, Apply(db, ops[0]), ChangeOf(db, ops[0]), a, fence);
      EveryOperationKeepsOwnership(db, ops[0]);
      RunKeepsLoss(Apply(db, ops[0]), ops[1..], a, fence);
    }
  }

  lemma PresentingNeedsHolding(db: Db, op: Op, a: Text, fence: nat)
    requires Presents(op, a, fence) && Accepts(db, op)
    ensures Holds(db, a, fence)
  {
    hide PendingIntents, HasInFlight, RowsUsed, Settled, ReservationsOf, LocksHeld, InHistory;
  }

  // Once lost, refused for ever: no later operation that presents the attempt with that fence is accepted.
  lemma LostFenceIsNeverAcceptedAgain(db: Db, ops: seq<Op>, op: Op, a: Text, fence: nat)
    requires OwnershipInv(db) && Lost(db, a, fence) && Presents(op, a, fence)
    ensures !Accepts(AfterAll(db, ops), op)
  {
    hide Accepts, AfterAll, Presents;
    RunKeepsLoss(db, ops, a, fence);
    if Accepts(AfterAll(db, ops), op) {
      PresentingNeedsHolding(AfterAll(db, ops), op, a, fence);
    }
  }

  // The ways to lose a fence: its lease row is gone, moved on or names someone else, or either lock row does.
  lemma FenceIsLostBy(db: Db, a: Text, fence: nat)
    requires fence <= db.sequence && a in db.attempts
    requires var row := db.attempts[a];
             var account, project := StripeAccount(row.environment.accountId),
               SupabaseProject(row.environment.projectRef);
             row.key !in db.leases || db.leases[row.key].attemptId != a || db.leases[row.key].fence != fence ||
             account !in db.locks || db.locks[account].attemptId != a || db.locks[account].fence != fence ||
             project !in db.locks || db.locks[project].attemptId != a || db.locks[project].fence != fence
    ensures Lost(db, a, fence)
  {
  }

  // ---------- An unexpired lease is nobody else's to take ----------

  // The operations by which an attempt's own lease is renewed, handed over or released.
  predicate Reassigns(op: Op, a: Text) {
    match op
    case HandOff(_, b, _, _, _) => b == a
    case Recheck(_, b, _, _, _) => b == a
    case Extend(_, b, _, _) => b == a
    case Clean(_, _, _, b, _, _, _) => b == a
    case _ => false
  }

  ghost predicate HoldsLease(db: Db, a: Text, lease: Lease) {
    Owns(db, a) && db.leases[db.attempts[a].key] == lease
  }

  lemma ReassignmentNamesItsAttempt(db: Db, op: Op, a: Text)
    requires !Reassigns(op, a)
    ensures var change := ChangeOf(db, op);
            (change.Rewrite? ==> change.attemptId != a) && (change.Release? ==> change.attemptId != a)
  {
    hide Accepts, Transition;
  }

  lemma ChangeSparesUnexpired(db: Db, after: Db, change: Change, a: Text, lease: Lease)
    requires RowsAgree(db) && Makes(db, after, change) && HoldsLease(db, a, lease) && lease.expiresAt > after.clock
    requires (change.Rewrite? ==> change.attemptId != a) && (change.Release? ==> change.attemptId != a)
    ensures HoldsLease(after, a, lease)
  {
    hide HoldsLocks, LeaseRowAgrees, LockRowAgrees, SameLedgers, SettlesOnlyUnexpired, HasInFlight;
    match change
    case Leave =>
    case MoveRow(b, row) => MovingMovesNoOwner(db, after, b, row, a);
    case Rewrite(b, row, other, _) => RewriteMovesNoOtherOwner(db, after, b, row, other, a);
    case Enter(now, q) => EntrySparesUnexpired(db, after, now, q, a, lease);
    case Release(b, row) => ReleaseMovesNoOtherOwner(db, after, b, row, a);
  }

  lemma EntrySparesUnexpired(db: Db, after: Db, now: int, q: AdmissionRequest, a: Text, lease: Lease)
    requires RowsAgree(db) && Vacant(db, now, q.key, q.environment) && AdmitsOwner(db, after, now, q, after.sequence)
    requires HoldsLease(db, a, lease) && lease.expiresAt > now
    ensures HoldsLease(after, a, lease)
  {
    hide HoldsLocks, LeaseRowAgrees, LockRowAgrees, PriorOwners, HasInFlight, NamesLease;
    UnexpiredOwnerSurvives(db, after, now, q, after.sequence, a);
    UnexpiredOwnerIsNotPrior(db, now, q.key, q.environment, a);
    assert db.attempts[a].key != q.key;
  }

  lemma ChangeMovesClockForward(db: Db, after: Db, change: Change)
    requires Makes(db, after, change)
    ensures db.clock <= after.clock
  {
    hide Owns, HoldsLocks, SameLedgers, SettlesOnlyUnexpired, HasInFlight, Vacant, PriorOwners;
  }

  lemma {:induction false} RunMovesClockForward(db: Db, ops: seq<Op>)
    requires OwnershipInv(db)
    ensures db.clock <= AfterAll(db, ops).clock
    decreases |ops|
  {
    hide Apply, ChangeOf, Makes, OwnershipAgrees, LeaseRowAgrees, LockRowAgrees;
    if ops == [] {
    } else {
      EveryOperationMakesItsChange(db, ops[0]);
      ChangeMovesClockForward(db, Apply(db, ops[0]), ChangeOf(db, ops[0]));
      EveryOperationKeepsOwnership(db, ops[0]);
      RunMovesClockForward(Apply(db, ops[0]), ops[1..]);
    }
  }

  // Until a lease expires only its own attempt's renewals, handoffs and cleanup can move it: over any run of all other
  // operations its holder keeps the lease row and both locks.
  lemma {:induction false} UnexpiredLeaseIsKept(db: Db, ops: seq<Op>, a: Text, lease: Lease)
    requires OwnershipInv(db) && HoldsLease(db, a, lease) && AfterAll(db, ops).clock < lease.expiresAt
    requires forall op :: op in ops ==> !Reassigns(op, a)
    ensures HoldsLease(AfterAll(db, ops), a, lease)
    decreases |ops|
  {
    hide Apply, ChangeOf, Makes, OwnershipAgrees, LeaseRowAgrees, LockRowAgrees, HoldsLease, Reassigns;
    if ops == [] {
    } else {
      var after := Apply(db, ops[0]);
      EveryOperationMakesItsChange(db, ops[0]);
      EveryOperationKeepsOwnership(db, ops[0]);
      RunMovesClockForward(after, ops[1..]);
      ReassignmentNamesItsAttempt(db, ops[0], a);
      ChangeSparesUnexpired(db, after, ChangeOf(db, ops[0]), a, lease);
      UnexpiredLeaseIsKept(after, ops[1..], a, lease);
    }
  }

  // ---------- Renewing an unexpired lease loses nothing ----------

  // `a` holds the lease it held, which expires no earlier.
  ghost predicate StillHolds(db: Db, a: Text, lease: Lease) {
    Owns(db, a) &&
    var later := db.leases[db.attempts[a].key];
    later == lease.(expiresAt := later.expiresAt) && lease.expiresAt <= later.expiresAt
  }

  // If `op` moves the lease of `a`, it is a renewal for `ttl`, and one that would not bring its expiry forward.
  predicate OnlyProlongs(db: Db, op: Op, a: Text, lease: Lease, ttl: int) {
    Reassigns(op, a) ==> op.Extend? && op.ttl == ttl && lease.expiresAt <= Now(db.clock, op.reading) + ttl
  }

  lemma RenewalProlongs(db: Db, op: Op, a: Text, lease: Lease)
    requires OwnershipInv(db) && HoldsLease(db, a, lease) && op.Extend? && op.attemptId == a
    ensures var after := Apply(db, op);
            after == db || HoldsLease(after, a, lease.(expiresAt := after.clock + op.ttl))
    ensures Apply(db, op) != db ==> Apply(db, op).clock == Now(db.clock, op.reading)
  {
    hide OwnerRefusal, LeaseRowAgrees, LockRowAgrees, OwnershipAgrees, HoldsLocks, LockMatches, WithOwnership;
    if Renew(db, op.reading, a, op.fence, op.ttl).reply.Granted? {
      RenewalWrites(db, Now(db.clock, op.reading), a, op.ttl);
    }
  }

  lemma RenewalWrites(db: Db, now: int, a: Text, ttl: int)
    requires Owns(db, a)
    ensures var row := db.attempts[a];
            var lease := db.leases[row.key].(expiresAt := now + ttl);
            var after := WithOwnership(db.(clock := now), Renewed, a, row, lease);
            HoldsLease(after, a, lease) && after.clock == now
  {
  }

  // A renewal and whatever else happens before the expiry leave the attempt its lease.
  lemma StepProlongs(db: Db, op: Op, a: Text, lease: Lease, ttl: int)
    requires OwnershipInv(db) && HoldsLease(db, a, lease) && Apply(db, op).clock < lease.expiresAt
    requires OnlyProlongs(db, op, a, lease, ttl)
    ensures var after := Apply(db, op);
            StillHolds(after, a, lease) &&
            var later := after.leases[after.attempts[a].key];
            later == lease || later.expiresAt == after.clock + ttl
  {
    hide Apply, ChangeOf, Makes, OwnershipAgrees, LeaseRowAgrees, LockRowAgrees, HoldsLocks;
    if Reassigns(op, a) {
      RenewalProlongs(db, op, a, lease);
    } else {
      EveryOperationMakesItsChange(db, op);
      ReassignmentNamesItsAttempt(db, op, a);
      ChangeSparesUnexpired(db, Apply(db, op), ChangeOf(db, op), a, lease);
    }
  }

  lemma StillOnlyProlongs(db: Db, after: Db, op: Op, a: Text, lease: Lease, later: Lease, ttl: int)
    requires OnlyProlongs(db, op, a, lease, ttl) && db.clock <= after.clock
    requires later == lease || later.expiresAt == after.clock + ttl
    ensures OnlyProlongs(after, op, a, later, ttl)
  {
  }

  // Until a lease expires its own attempt may renew it at any time, and nobody else can take it.
  lemma {:induction false} RenewedLeaseIsKept(db: Db, ops: seq<Op>, a: Text, lease: Lease, ttl: int)
    requires OwnershipInv(db) && HoldsLease(db, a, lease) && AfterAll(db, ops).clock < lease.expiresAt
    requires forall op :: op in ops ==> OnlyProlongs(db, op, a, lease, ttl)
    ensures StillHolds(AfterAll(db, ops), a, lease)
    decreases |ops|
  {
    hide Apply, ChangeOf, Makes, OwnershipInv, HoldsLocks, Reassigns;
    if ops == [] {
    } else {
      var after := Apply(db, ops[0]);
      EveryOperationKeepsOwnership(db, ops[0]);
      ClockOfRun(db, ops);
      StepProlongs(db, ops[0], a, lease, ttl);
      var later := after.leases[after.attempts[a].key];
      forall op | op in ops[1..] ensures OnlyProlongs(after, op, a, later, ttl) {
        StillOnlyProlongs(db, after, op, a, lease, later, ttl);
      }
      RenewedLeaseIsKept(after, ops[1..], a, later, ttl);
    }
  }

  lemma ClockOfRun(db: Db, ops: seq<Op>)
    requires OwnershipInv(db) && ops != []
    ensures db.clock <= Apply(db, ops[0]).clock <= AfterAll(db, ops).clock
  {
    hide Apply, ChangeOf, Makes, OwnershipAgrees, LeaseRowAgrees, LockRowAgrees;
    EveryOperationMakesItsChange(db, ops[0]);
    ChangeMovesClockForward(db, Apply(db, ops[0]), ChangeOf(db, ops[0]));
    EveryOperationKeepsOwnership(db, ops[0]);
    RunMovesClockForward(Apply(db, ops[0]), ops[1..]);
  }
}
