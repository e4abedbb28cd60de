// What holds in every state the control store can reach, and along every run.
module Safety {
  import opened Options
  import opened Records
  import opened Control
  import opened Runs
  import opened Ownership
  import opened Changes
  import opened Fences
  import opened History
  import opened Lifecycle
  import opened StripeLedger
  import opened RetentionLedger
  import opened FixtureLedger

  // Attempts with a cleanup receipt have completed cleanup.
  ghost predicate CleanupInv(db: Db) {
    forall a :: a in db.cleanups ==> a in db.attempts && db.attempts[a].cleanup == Done
  }

  ghost predicate Sound(db: Db) {
    OwnershipInv(db) && HistoryInv(db) && LifecycleInv(db) && StripeInv(db) && RetentionInv(db) && FixtureInv(db) &&
    CleanupInv(db)
  }

  lemma ChangeKeepsCleanups(db: Db, after: Db, change: Change)
    requires OwnershipInv(db) && CleanupInv(db) && Makes(db, after, change)
    ensures CleanupInv(after)
  {
    hide Owns, LeaseRowAgrees, LockRowAgrees, SameLedgers, Vacant, SettlesOnlyUnexpired;
    forall a | a in after.cleanups ensures a in after.attempts && after.attempts[a].cleanup == Done {
      if a in db.cleanups {
        ChangeMovesRow(db, after, change, a);
      }
    }
  }

  lemma EmptyIsSound()
    ensures Sound(EMPTY)
  {
    assert Total(map[]) == NO_USAGE;
    assert forall s :: s in EMPTY.fixtures ==> CaseKey(s.attemptId, s.caseId) in EMPTY.caseClaims;
  }

  lemma OperationKeepsSound(db: Db, op: Op)
    requires Sound(db)
    ensures Sound(Apply(db, op))
  {
    hide OwnershipInv, HistoryInv, LifecycleInv, StripeInv, RetentionInv, FixtureInv, CleanupInv, Apply, ChangeOf,
         Makes;
    assert RowsAgree(db) by { OwnershipInvHasRows(db); }
    EveryOperationMakesItsChange(db, op);
    EveryOperationKeepsOwnership(db, op);
    ChangeKeepsHistory(db, Apply(db, op), ChangeOf(db, op));
    ChangeKeepsLifecycle(db, Apply(db, op), ChangeOf(db, op));
    OperationKeepsStripeRows(db, op);
    OperationKeepsRetention(db, op);
    OperationKeepsFixtures(db, op);
    ChangeKeepsCleanups(db, Apply(db, op), ChangeOf(db, op));
  }

  lemma OwnershipInvHasRows(db: Db)
    requires OwnershipInv(db)
    ensures RowsAgree(db)
  {
  }

  lemma {:induction false} RunKeepsSound(db: Db, ops: seq<Op>)
    requires Sound(db)
    ensures Sound(AfterAll(db, ops))
    decreases |ops|
  {
    hide Sound, Apply;
    if ops == [] {
    } else {
      OperationKeepsSound(db, ops[0]);
      RunKeepsSound(Apply(db, ops[0]), ops[1..]);
    }
  }

  // The main invariant: whatever is done to an empty store, in whatever order, its tables stay sound.
  lemma ReachableIsSound(ops: seq<Op>)
    ensures Sound(AfterAll(EMPTY, ops))
  {
    hide Sound, AfterAll;
    EmptyIsSound();
    RunKeepsSound(EMPTY, ops);
  }

  // ---------- Mutual exclusion ----------

  ghost predicate LocksAgreeWithLease(db: Db, key: Key) requires key in db.leases {
    var lease := db.leases[key];
    lease.attemptId in db.attempts && db.attempts[lease.attemptId].key == key &&
    HoldsLocks(db.locks, db.attempts[lease.attemptId], lease, lease.attemptId, lease.fence)
  }

  // Each lease unexpired at `now` owns both lock rows of its attempt's environment.
  lemma UnexpiredLeaseHoldsItsLocks(ops: seq<Op>, now: int, key: Key)
    requires AfterAll(EMPTY, ops).clock <= now
    requires key in AfterAll(EMPTY, ops).leases && AfterAll(EMPTY, ops).leases[key].expiresAt > now
    ensures LocksAgreeWithLease(AfterAll(EMPTY, ops), key)
  {
    hide AfterAll, HoldsLocks, LockRowAgrees, RetentionInv, StripeInv, HistoryInv, LifecycleInv, FixtureInv, CleanupInv;
    ReachableIsSound(ops);
    var db := AfterAll(EMPTY, ops);
    assert LeaseRowAgrees(db, key) && Owns(db, db.leases[key].attemptId);
  }

  // No two unexpired leases share a database project or a Stripe account.
  lemma UnexpiredLeasesShareNothing(ops: seq<Op>, now: int, left: Key, right: Key)
    requires AfterAll(EMPTY, ops).clock <= now && left != right
    requires left in AfterAll(EMPTY, ops).leases && AfterAll(EMPTY, ops).leases[left].expiresAt > now
    requires right in AfterAll(EMPTY, ops).leases && AfterAll(EMPTY, ops).leases[right].expiresAt > now
    ensures var db := AfterAll(EMPTY, ops);
            LocksAgreeWithLease(db, left) && LocksAgreeWithLease(db, right) &&
            var one, other := db.attempts[db.leases[left].attemptId], db.attempts[db.leases[right].attemptId];
            one.environment.projectRef != other.environment.projectRef &&
            one.environment.accountId != other.environment.accountId
  {
    hide AfterAll;
    UnexpiredLeaseHoldsItsLocks(ops, now, left);
    UnexpiredLeaseHoldsItsLocks(ops, now, right);
  }

  // An attempt with an intent that has no receipt still holds its lease row and both its lock rows.
  lemma PendingIntentKeepsOwnership(ops: seq<Op>, intentId: Text)
    requires intentId in AfterAll(EMPTY, ops).intents && intentId !in AfterAll(EMPTY, ops).receipts
    ensures Owns(AfterAll(EMPTY, ops), AfterAll(EMPTY, ops).intents[intentId].attemptId)
  {
    hide AfterAll, Owns, RowsAgree, RetentionInv, StripeInv, HistoryInv, LifecycleInv, FixtureInv, CleanupInv;
    ReachableIsSound(ops);
  }

  // A fence that has lost any of its three rows is refused for ever.
  lemma LostFenceIsRefusedForEver(ops: seq<Op>, more: seq<Op>, op: Op, a: Text, fence: nat)
    requires Lost(AfterAll(EMPTY, ops), a, fence) && Presents(op, a, fence)
    ensures !Accepts(AfterAll(EMPTY, ops + more), op)
  {
    hide *;
    ReachableIsSound(ops);
    SoundHasOwnership(AfterAll(EMPTY, ops));
    RunAppend(EMPTY, ops, more);
    LostFenceIsNeverAcceptedAgain(AfterAll(EMPTY, ops), more, op, a, fence);
  }

  lemma SoundHasOwnership(db: Db)
    requires Sound(db)
    ensures OwnershipInv(db) && RowsAgree(db)
  {
    hide RowsAgree;
  }

  // Nobody takes an unexpired lease: until its expiry a holder keeps lease and locks, and passes every fence check,
  // over any run of operations but its own renewals, handoffs and cleanup.
  lemma UnexpiredLeaseIsNobodyElses(ops: seq<Op>, more: seq<Op>, a: Text, lease: Lease, now: int)
    requires HoldsLease(AfterAll(EMPTY, ops), a, lease) && (forall op :: op in more ==> !Reassigns(op, a))
    requires AfterAll(EMPTY, ops + more).clock <= now < lease.expiresAt
    ensures var db := AfterAll(EMPTY, ops + more);
            HoldsLease(db, a, lease) && OwnerRefusal(db.leases, db.locks, db.attempts[a], a, lease.fence, now).None?
  {
    hide *;
    ReachableIsSound(ops);
    SoundHasOwnership(AfterAll(EMPTY, ops));
    RunAppend(EMPTY, ops, more);
    UnexpiredLeaseIsKept(AfterAll(EMPTY, ops), more, a, lease);
    HolderPasses(AfterAll(EMPTY, ops + more), a, lease, now);
  }

  // And its own renewals, at any time before that, leave it the same lease with a later expiry.
  lemma RenewedLeaseIsNobodyElses(ops: seq<Op>, more: seq<Op>, a: Text, lease: Lease, ttl: int)
    requires var db := AfterAll(EMPTY, ops);
             HoldsLease(db, a, lease) && forall op :: op in more ==> OnlyProlongs(db, op, a, lease, ttl)
    requires AfterAll(EMPTY, ops + more).clock < lease.expiresAt
    ensures StillHolds(AfterAll(EMPTY, ops + more), a, lease)
  {
    hide *;
    ReachableIsSound(ops);
    SoundHasOwnership(AfterAll(EMPTY, ops));
    RunAppend(EMPTY, ops, more);
    RenewedLeaseIsKept(AfterAll(EMPTY, ops), more, a, lease, ttl);
  }

  lemma HolderPasses(db: Db, a: Text, lease: Lease, now: int)
    requires HoldsLease(db, a, lease) && now < lease.expiresAt
    ensures a in db.attempts && OwnerRefusal(db.leases, db.locks, db.attempts[a], a, lease.fence, now).None?
  {
  }

  // ---------- Quotas ----------

  // What a scope has been charged stays within the one quota record its reservations share, and its attempts component
  // is the number of reservations ever made there.
  lemma QuotasAreNeverExceeded(ops: seq<Op>, r: Text)
    requires r in AfterAll(EMPTY, ops).reservations
    ensures var db := AfterAll(EMPTY, ops);
            Charged(db, db.reservations[r].scope).Within(db.reservations[r].quotas) &&
            Charged(db, db.reservations[r].scope).attempts == |ScopeReservations(db, db.reservations[r].scope)| &&
            forall s :: s in db.reservations && db.reservations[s].scope == db.reservations[r].scope ==>
              db.reservations[s].quotas == db.reservations[r].quotas
  {
    hide AfterAll, Charged, OwnershipInv, StripeInv, HistoryInv, LifecycleInv, FixtureInv, CleanupInv;
    ReachableIsSound(ops);
    var db := AfterAll(EMPTY, ops);
    ChargedCountsReservations(db, db.reservations[r].scope);
  }

  lemma OnlyReservation(db: Db, a: Text, r: Text)
    requires Sound(db) && r in ReservationsOf(db.reservations, a)
    ensures ReservationsOf(db.reservations, a) == {r}
  {
  }

  lemma OwnReservationHasOwnScope(db: Db, a: Text)
    requires Sound(db) && a in db.attempts
    ensures ReservationsOf(db.reservations, a) != {}
    ensures forall r :: r in ReservationsOf(db.reservations, a) ==>
              db.reservations[r].scope == ScopeOf(db.attempts[a].environment)
  {
  }

  // ---------- Replay ----------

  // Repeating an admission while its lease lasts grants exactly what the admission granted, and touches no row.
  lemma ReplayRepeatsTheAdmission(db: Db, reading: int, expected: Option<Environment>, q: AdmissionRequest,
                                  recovered: set<Text>, id: Text,
                                  later: int, recoveredLater: set<Text>, idLater: Text)
    requires Sound(db) && q.attemptId !in db.attempts && Prepare(db, reading, expected, q, recovered, id).reply.Granted?
    requires Now(Prepare(db, reading, expected, q, recovered, id).db.clock, later) < Now(db.clock, reading) + q.ttl
    ensures var out := Prepare(db, reading, expected, q, recovered, id);
            var now := Now(out.db.clock, later);
            Prepare(out.db, later, expected, q, recoveredLater, idLater) == Outcome(out.db.(clock := now), out.reply)
  {
    hide OwnershipInv, HistoryInv, LifecycleInv, StripeInv, FixtureInv, CleanupInv, RetentionCapacity,
         AdmissionCapacity, AfterAdmission, AdmissionRefusal, HoldsLocks, ValidRetention, ValidTtl, RetentionInv,
         FreshRow, FreshLease;
    var now := Now(db.clock, reading);
    GrantedAdmission(db, reading, expected, q, recovered, id);
    AdmissionIsReplayable(db, now, q, id);
    FreshRowsIdentity(q, db.sequence + 1, now);
  }

  lemma FreshRowsIdentity(q: AdmissionRequest, fence: nat, now: int)
    ensures FreshRow(q, now).phase == Collecting && SameIdentity(FreshRow(q, now), q)
    ensures var lease := FreshLease(q, fence, now);
            lease.attemptId == q.attemptId && lease.expiresAt == now + q.ttl && lease.candidateSha == q.candidateSha &&
            lease.run == q.workflow.run && lease.fence == fence
  {
  }

  lemma GrantedAdmission(db: Db, reading: int, expected: Option<Environment>, q: AdmissionRequest,
                         recovered: set<Text>, id: Text)
    requires q.attemptId !in db.attempts && Prepare(db, reading, expected, q, recovered, id).reply.Granted?
    ensures id !in db.reservations && ReservationsOf(db.reservations, q.attemptId) == {}
    ensures ValidRetention(q.quotas, q.projection) && ValidTtl(q.ttl) && q.key.projectRef == q.environment.projectRef
    ensures expected.Some? ==> expected.value == q.environment
    ensures var now := Now(db.clock, reading);
            Prepare(db, reading, expected, q, recovered, id) ==
            Outcome(AfterAdmission(db, now, q, id),
                    Granted(Admitted(FreshRow(q, now), db.sequence + 1, id, AdmissionCapacity(db, q))))
  {
    hide RetentionCapacity, AdmissionCapacity, AfterAdmission, FreshRow, PriorLockRefusal, PriorLeaseRefusal,
         PriorOwners, MayReplace;
  }

  lemma AdmissionIsReplayable(db: Db, now: int, q: AdmissionRequest, id: Text)
    requires RetentionInv(db) && id !in db.reservations && ReservationsOf(db.reservations, q.attemptId) == {}
    ensures var after := AfterAdmission(db, now, q, id);
            q.attemptId in after.attempts && after.attempts[q.attemptId] == FreshRow(q, now) && q.key in after.leases &&
            after.leases[q.key] == FreshLease(q, db.sequence + 1, now) && after.clock == now &&
            HoldsLocks(after.locks, FreshRow(q, now), FreshLease(q, db.sequence + 1, now), q.attemptId,
                       db.sequence + 1) &&
            ReservationsOf(after.reservations, q.attemptId) == {id} && id !in after.settlements &&
            after.reservations[id] ==
            Reservation(q.attemptId, ScopeOf(q.environment), q.quotas, q.projection, AdmissionCapacity(db, q), now)
  {
    hide PriorOwners, AdmissionCapacity, Retired, OneReservationEach, OnePolicyEach, WithinQuotas;
    assert id !in db.settlements by {
      assert forall r :: r in db.settlements ==> SettlementAgrees(db, r);
    }
  }

  // ---------- Stripe intents ----------

  // At most one intent for an attempt's operation, and its one receipt repeats it under no earlier a fence.
  lemma IntentsAndReceiptsAgree(ops: seq<Op>)
    ensures var db := AfterAll(EMPTY, ops);
            (forall i, j :: i in db.intents && j in db.intents && SameOperation(db.intents[i], db.intents[j]) ==>
               i == j) &&
            forall i :: i in db.receipts ==> i in db.intents && Settles(db.receipts[i], db.intents[i])
  {
    hide AfterAll, OwnershipInv, RetentionInv, HistoryInv, LifecycleInv, FixtureInv, CleanupInv, SameOperation, Settles,
         SameIdempotency, IntentNamesItsAttempt;
    ReachableIsSound(ops);
  }

  // Once an attempt is handed over for recovery, its set of intents never grows again.
  lemma RecoveryClosesIntents(ops: seq<Op>, handoff: Op, more: seq<Op>)
    requires handoff.HandOff? && Accepts(AfterAll(EMPTY, ops), handoff)
    ensures IntentsOf(AfterAll(EMPTY, ops + [handoff] + more), handoff.attemptId) ==
            IntentsOf(AfterAll(EMPTY, ops), handoff.attemptId)
  {
    hide *;
    var db, after := AfterAll(EMPTY, ops), AfterAll(EMPTY, ops + [handoff]);
    RunAppend(EMPTY, ops, [handoff]);
    RunAppend(EMPTY, ops + [handoff], more);
    OneStep(db, handoff);
    AcceptedHandoffEntersRecovery(db, handoff);
    ReachableIsSound(ops + [handoff]);
    SoundHasOwnership(after);
    RecoveryNeverBeginsAnotherIntent(after, more, handoff.attemptId);
  }

  lemma OneStep(db: Db, op: Op)
    ensures AfterAll(db, [op]) == Apply(db, op)
  {
    hide Apply;
    assert [op][1..] == [];
    assert AfterAll(Apply(db, op), [op][1..]) == Apply(db, op);
  }

  lemma AcceptedHandoffEntersRecovery(db: Db, handoff: Op)
    requires handoff.HandOff? && Accepts(db, handoff)
    ensures InRecovery(Apply(db, handoff), handoff.attemptId)
    ensures IntentsOf(Apply(db, handoff), handoff.attemptId) == IntentsOf(db, handoff.attemptId)
  {
    hide HandoffStripeIntentRecovery, InRecovery;
    HandoffEntersRecovery(db, handoff.reading, handoff.attemptId, handoff.fence, handoff.ttl, handoff.verdict);
    HandoffLeavesIntents(db, handoff.reading, handoff.attemptId, handoff.fence, handoff.ttl, handoff.verdict);
  }

  lemma HandoffLeavesIntents(db: Db, reading: int, a: Text, fence: nat, ttl: int, verdict: RecoveryVerdict)
    ensures HandoffStripeIntentRecovery(db, reading, a, fence, ttl, verdict).db.intents == db.intents
  {
    hide RecoveryRefusal;
  }

  // While an attempt is rechecking, its owner is never refused for settling an intent under the fence that began it.
  lemma RecheckingOwnerMaySettle(ops: seq<Op>, reading: int, a: Text, fence: nat, id: Text, o: Observation,
                                 verified: bool)
    requires a in AfterAll(EMPTY, ops).attempts && AfterAll(EMPTY, ops).attempts[a].phase == Rechecking
    ensures var db := AfterAll(EMPTY, ops);
            ReconcileStripeIntent(db, reading, a, fence, id, o, verified).reply != Denied(RecoveryReadOnly)
  {
    hide AfterAll, OwnershipInv, RetentionInv, HistoryInv, LifecycleInv, FixtureInv, CleanupInv, OwnerRefusal,
         StripeInv;
    ReachableIsSound(ops);
    var db := AfterAll(EMPTY, ops);
    var refusal := OwnerRefusal(db.leases, db.locks, db.attempts[a], a, fence, Now(db.clock, reading));
    OwnerRefusalCodes(db, a, fence, Now(db.clock, reading));
    if refusal.None? && id in db.intents && db.intents[id].attemptId == a {
      RecheckingIntentIsOlder(db, reading, a, fence, id);
    }
  }

  // ---------- Fixtures ----------

  // A reservation's use is exactly what its accepted metered writes charged, and stays within its projection.
  lemma FixtureChargesAreExact(ops: seq<Op>, r: Text)
    ensures var db := AfterAll(EMPTY, ops);
            RowsUsed(db.usage, r) == RowsCharged(EMPTY, ops, r) && ChainsContinue(db.reservations, db.usage) &&
            0 <= RowsCharged(EMPTY, ops, r) &&
            (RowsCharged(EMPTY, ops, r) > 0 ==>
               r in db.reservations && RowsCharged(EMPTY, ops, r) <= db.reservations[r].projection.databaseRows)
  {
    hide AfterAll, OwnershipInv, RetentionInv, HistoryInv, LifecycleInv, StripeInv, CleanupInv, ClaimsAgree,
         ChainsContinue, RowsCharged;
    ReachableIsSound(ops);
    EmptyIsSound();
    ChargingIsExact(EMPTY, ops, r);
    var db := AfterAll(EMPTY, ops);
    RowsUsedIsWithinProjection(db.reservations, db.usage, r);
  }

  // In any run, two accepted metered writes name different slots and different fixtures.
  lemma EveryFixtureIsClaimedOnce(ops: seq<Op>, first: Op, between: seq<Op>, second: Op)
    requires first.Charge? && Accepts(AfterAll(EMPTY, ops), first)
    requires second.Charge? && Accepts(AfterAll(EMPTY, ops + [first] + between), second)
    ensures var one, other := first.fixture, second.fixture;
            one.fixtureId != other.fixtureId &&
            FixtureSlot(one.attemptId, one.caseId, one.kind) != FixtureSlot(other.attemptId, other.caseId, other.kind)
  {
    hide *;
    var db := AfterAll(EMPTY, ops);
    RunAppend(EMPTY, ops, [first]);
    RunAppend(EMPTY, ops + [first], between);
    OneStep(db, first);
    ReachableIsSound(ops);
    SoundHasOwnership(db);
    ReachableIsSound(ops + [first]);
    SoundHasOwnership(Apply(db, first));
    AcceptedChargeIsGranted(db, first);
    AcceptedChargeIsGranted(AfterAll(EMPTY, ops + [first] + between), second);
    NothingIsClaimedTwice(db, first.reading, first.insertReading, first.fixture, between, second.reading,
                          second.insertReading,
                          second.fixture);
  }

  lemma AcceptedChargeIsGranted(db: Db, op: Op)
    requires op.Charge? && Accepts(db, op)
    ensures FixtureMutationWithReservation(db, op.reading, op.insertReading, op.fixture).reply.Granted?
    ensures Apply(db, op) == FixtureMutationWithReservation(db, op.reading, op.insertReading, op.fixture).db
  {
    hide FixtureMutationWithReservation;
  }

  // ---------- History ----------

  // The append-only history alone rebuilds every lease row, and is well formed.
  lemma HistoryRebuildsLeases(ops: seq<Op>, key: Key)
    ensures var db := AfterAll(EMPTY, ops);
            WellFormed(db.history) && Replay(db.history, key) == LeaseTenure(db.leases, key)
  {
    hide AfterAll, OwnershipInv, StripeInv, RetentionInv, LifecycleInv, FixtureInv, CleanupInv, WellFormed, Replay,
         LeaseTenure;
    ReachableIsSound(ops);
  }

  // ---------- Phases ----------

  // How the rows of one attempt may change over any number of operations.
  predicate RowMayEndAs(before: Attempt, after: Attempt) {
    after.key == before.key && after.candidateSha == before.candidateSha && after.workflow == before.workflow &&
    after.environment == before.environment && after.createdAt == before.createdAt &&
    (after.phase == Collecting ==> before.phase == Collecting) &&
    (after.phase == Collected ==> before.phase == Collecting || before.phase == Collected) &&
    (before.cleanup == Done ==> after == before.(updatedAt := after.updatedAt))
  }

  lemma {:induction false} RunMovesRow(db: Db, ops: seq<Op>, a: Text)
    requires OwnershipInv(db) && a in db.attempts
    ensures a in AfterAll(db, ops).attempts && RowMayEndAs(db.attempts[a], AfterAll(db, ops).attempts[a])
    decreases |ops|
  {
    hide Apply, ChangeOf, Makes, OwnershipAgrees, LeaseRowAgrees, LockRowAgrees;
    if ops == [] {
    } else {
      EveryOperationMakesItsChange(db, ops[0]);
      ChangeMovesRow(db, Apply(db, ops[0]), ChangeOf(db, ops[0]), a);
      EveryOperationKeepsOwnership(db, ops[0]);
      RunMovesRow(Apply(db, ops[0]), ops[1..], a);
    }
  }

  // Collecting is never re-entered, and once cleanup is done nothing but the time of its last update ever changes.
  lemma RowsOnlyMoveForward(ops: seq<Op>, more: seq<Op>, a: Text)
    requires a in AfterAll(EMPTY, ops).attempts
    ensures a in AfterAll(EMPTY, ops + more).attempts
    ensures RowMayEndAs(AfterAll(EMPTY, ops).attempts[a], AfterAll(EMPTY, ops + more).attempts[a])
  {
    hide AfterAll, RowMayEndAs, OwnershipInv;
    ReachableIsSound(ops);
    assert OwnershipInv(AfterAll(EMPTY, ops)) by { SoundHasOwnership(AfterAll(EMPTY, ops)); }
    RunAppend(EMPTY, ops, more);
    RunMovesRow(AfterAll(EMPTY, ops), more, a);
  }

  // An attempt completes only out of rechecking, and collects only from its admission.
  lemma PhasesAreEnteredInOrder(ops: seq<Op>, op: Op, a: Text)
    requires a in Apply(AfterAll(EMPTY, ops), op).attempts
    ensures var db, after := AfterAll(EMPTY, ops), Apply(AfterAll(EMPTY, ops), op);
            (after.attempts[a].phase == Collecting ==>
              (a in db.attempts && db.attempts[a].phase == Collecting) ||
              (op.Admit? && op.admission.attemptId == a && a !in db.attempts)) &&
            (after.attempts[a].phase == Complete ==> a in db.attempts && db.attempts[a].phase in {Rechecking, Complete})
  {
    hide AfterAll, Sound, Apply, ChangeOf, OwnershipInv, RowsAgree, Makes;
    var db := AfterAll(EMPTY, ops);
    ReachableIsSound(ops);
    SoundHasOwnership(db);
    EveryOperationMakesItsChange(db, op);
    if a in db.attempts {
      ChangeMovesRow(db, Apply(db, op), ChangeOf(db, op), a);
    } else {
      NewRowIsFresh(db, op, a);
    }
  }

  lemma EntryIsAnAdmission(db: Db, op: Op)
    requires ChangeOf(db, op).Enter?
    ensures op.Admit? && ChangeOf(db, op).admission == op.admission
  {
    hide Accepts, Transition;
  }

  lemma EntryAddsOneAttempt(db: Db, after: Db, now: int, q: AdmissionRequest, a: Text)
    requires Makes(db, after, Enter(now, q)) && a !in db.attempts && a in after.attempts
    ensures a == q.attemptId && after.attempts[a].phase == Collecting
  {
    hide Owns, HoldsLocks, Vacant, SameLedgers, PriorOwners;
  }

  lemma NewRowIsFresh(db: Db, op: Op, a: Text)
    requires Makes(db, Apply(db, op), ChangeOf(db, op)) && a !in db.attempts && a in Apply(db, op).attempts
    ensures op.Admit? && op.admission.attemptId == a && Apply(db, op).attempts[a].phase == Collecting
  {
    hide Apply, Makes;
    if !ChangeOf(db, op).Enter? {
      ChangeKeepsAttempts(db, Apply(db, op), ChangeOf(db, op));
    } else {
      EntryIsAnAdmission(db, op);
      EntryAddsOneAttempt(db, Apply(db, op), ChangeOf(db, op).now, op.admission, a);
    }
  }

  // While an attempt collects and holds its lease row, it does so under the fence of its admission.
  lemma CollectingHoldsAdmissionFence(ops: seq<Op>, a: Text)
    requires var db := AfterAll(EMPTY, ops); Leases(db, a) && db.attempts[a].phase == Collecting
    ensures var db := AfterAll(EMPTY, ops);
            AdmissionFence(db.history, a) == Some(db.leases[db.attempts[a].key].fence)
  {
    hide AfterAll, OwnershipInv, StripeInv, RetentionInv, HistoryInv, FixtureInv, CleanupInv, AdmissionFence;
    ReachableIsSound(ops);
    assert AttemptStanding(AfterAll(EMPTY, ops), a);
  }

  // ---------- Constraints that never fire ----------

  lemma LeaseFenceIsInHistory(db: Db, a: Text)
    requires HistoryInv(db) && LifecycleInv(db) && Leases(db, a)
    ensures InHistory(db.history, a, db.attempts[a].environment.projectRef, db.leases[db.attempts[a].key].fence)
  {
    assert AttemptStanding(db, a);
    assert Replay(db.history, db.attempts[a].key).Some?;
    var e := ReplayedEvent(db.history, db.attempts[a].key);
    assert e in db.history;
  }

  // The event that `Replay` reads.
  lemma {:induction false} ReplayedEvent(history: seq<LeaseEvent>, key: Key) returns (e: LeaseEvent)
    requires Replay(history, key).Some?
    ensures e in history && e.key == key && Some(TenureOf(e)) == Replay(history, key)
  {
    e := history[|history| - 1];
    if e.key == key {
    } else {
      e := ReplayedEvent(history[..|history| - 1], key);
    }
  }

  // Apart from the expiry of the lease, the database's rules on settlements, cleanup receipts and usage events never
  // refuse what the store lets through, and a cleanup receipt is never in the way.
  lemma DatabaseRulesNeverRefuse(ops: seq<Op>, op: Op)
    ensures var db := AfterAll(EMPTY, ops);
            match op
            case Settle(reading, id, outcome, retained, verified) =>
              ReconcileReservation(db, reading, id, outcome, retained, verified).reply != Denied(ConstraintViolation)
            case Clean(reading, insert, release, a, fence, projection, verified) =>
              var reply := Cleanup(db, reading, insert, release, a, fence, projection, verified).reply;
              reply != Denied(ConstraintViolation) && reply != Denied(CleanupReceiptConflict)
            case Charge(reading, insert, q, _) =>
              FixtureMutationWithReservation(db, reading, insert, q).reply != Denied(FixtureUsageInvalid)
            case _ => true
  {
    hide AfterAll, Sound, ReconcileReservation, Cleanup, FixtureMutationWithReservation;
    var db := AfterAll(EMPTY, ops);
    ReachableIsSound(ops);
    match op
    case Settle(reading, id, outcome, retained, verified) =>
      SettlementMeetsConstraints(db, reading, id, outcome, retained, verified);
    case Clean(reading, insert, release, a, fence, projection, verified) =>
      CleanupMeetsConstraints(db, reading, insert, release, a, fence, projection, verified);
    case Charge(reading, insert, q, _) =>
      ChargeMeetsConstraints(db, reading, insert, q);
    case _ =>
  }

  // The database refuses a cleanup that the store lets through exactly when the lease has expired by the time the
  // receipt is inserted.
  lemma CleanupExpiryIsExact(ops: seq<Op>, reading: int, insert: int, release: int, a: Text, fence: nat,
                             projection: Text,
                             verified: bool)
    ensures var db := AfterAll(EMPTY, ops);
            var now := Now(db.clock, reading);
            Cleanup(db, reading, insert, release, a, fence, projection, verified).reply ==
              Denied(CleanupReceiptFenceMismatch) <==>
            CleanupGuard(db, now, a, fence, verified).None? &&
            db.leases[db.attempts[a].key].expiresAt <= Now(now, insert)
  {
    hide AfterAll, Sound, Cleanup, CleanupGuard;
    ReachableIsSound(ops);
    CleanupMeetsConstraints(AfterAll(EMPTY, ops), reading, insert, release, a, fence, projection, verified);
  }

  // The database refuses the case claim of a metered write that the store lets through exactly when the lease has
  // expired by the time the claim is inserted.
  lemma CaseClaimExpiryIsExact(ops: seq<Op>, reading: int, insert: int, q: FixtureRequest)
    ensures var db := AfterAll(EMPTY, ops);
            var now := Now(db.clock, reading);
            FixtureMutationWithReservation(db, reading, insert, q).reply == Denied(FixtureCaseClaimInvalid) <==>
            FixtureGuard(db, now, q).None? && db.leases[db.attempts[q.attemptId].key].expiresAt <= Now(now, insert)
  {
    hide AfterAll, Sound, FixtureMutationWithReservation, FixtureGuard;
    ReachableIsSound(ops);
    ChargeMeetsConstraints(AfterAll(EMPTY, ops), reading, insert, q);
  }

  lemma SettlementMeetsConstraints(db: Db, reading: int, id: Text, outcome: RunOutcome, retained: Usage, verified: bool)
    requires Sound(db)
    ensures ReconcileReservation(db, reading, id, outcome, retained, verified).reply != Denied(ConstraintViolation)
  {
    hide InHistory, OwnershipInv, StripeInv, RetentionInv, HistoryInv, LifecycleInv, FixtureInv, CleanupInv;
    if id in db.reservations && Leases(db, db.reservations[id].attemptId) {
      LeaseFenceIsInHistory(db, db.reservations[id].attemptId);
    }
  }

  lemma OwnerLeaseLasts(db: Db, a: Text, at: int)
    requires OwnershipInv(db) && LifecycleInv(db) && Owns(db, a)
    ensures var row := db.attempts[a];
            var lease := db.leases[row.key];
            LeaseLasts(db.leases, a, row.environment.projectRef, lease.fence, at) == (lease.expiresAt > at) &&
            WritingLeaseLasts(db.leases, a, row.environment.projectRef, lease.fence, at) ==
            (lease.expiresAt > at && !lease.recoveryOnly)
  {
    hide HoldsLocks, LockRowAgrees;
    var row := db.attempts[a];
    assert AttemptStanding(db, a);
    forall key | key in db.leases && db.leases[key].attemptId == a ensures key == row.key {
      assert LeaseRowAgrees(db, key);
    }
  }

  lemma FixtureGuardCodes(db: Db, now: int, q: FixtureRequest)
    ensures FixtureGuard(db, now, q).Some? ==>
              FixtureGuard(db, now, q).value != FixtureCaseClaimInvalid &&
              FixtureGuard(db, now, q).value != FixtureUsageInvalid
    ensures FixtureGuard(db, now, q).None? ==>
              q.attemptId in db.attempts && Owns(db, q.attemptId) && q.reservationId in db.reservations && q.rows > 0 &&
              var row, reservation := db.attempts[q.attemptId], db.reservations[q.reservationId];
              db.leases[row.key].fence == q.fence && row.phase == Collecting && !db.leases[row.key].recoveryOnly &&
              reservation.attemptId == q.attemptId && reservation.scope == ScopeOf(row.environment) &&
              0 <= RowsUsed(db.usage, q.reservationId) &&
              RowsUsed(db.usage, q.reservationId) + q.rows <= reservation.projection.databaseRows
  {
    hide HoldsLocks, OwnerRefusal, RowsUsed;
    if q.attemptId in db.attempts {
      CurrentOwnerOwns(db, q.attemptId, q.fence, now);
      OwnerRefusalCodes(db, q.attemptId, q.fence, now);
    }
  }

  lemma ChargeEventIsAllowed(db: Db, q: FixtureRequest)
    requires FixtureInv(db) && q.reservationId in db.reservations && q.rows > 0
    requires db.reservations[q.reservationId].attemptId == q.attemptId && 0 <= RowsUsed(db.usage, q.reservationId)
    requires RowsUsed(db.usage, q.reservationId) + q.rows <= db.reservations[q.reservationId].projection.databaseRows
    ensures UsageEventAllowed(db.reservations, db.usage, EventOfCharge(db.usage, q))
  {
    hide RowsUsed, ChainsContinue, ClaimsAgree;
    forall other | other in db.usage && other.reservationId == q.reservationId
      ensures other.currentRows <= RowsUsed(db.usage, q.reservationId)
    {
      var i :| 0 <= i < |db.usage| && db.usage[i] == other;
      LastEventIsTheMaximum(db.reservations, db.usage, i);
    }
  }

  lemma ChargeMeetsConstraints(db: Db, reading: int, insert: int, q: FixtureRequest)
    requires Sound(db)
    ensures FixtureMutationWithReservation(db, reading, insert, q).reply != Denied(FixtureUsageInvalid)
    ensures var now := Now(db.clock, reading);
            FixtureMutationWithReservation(db, reading, insert, q).reply == Denied(FixtureCaseClaimInvalid) <==>
            FixtureGuard(db, now, q).None? && db.leases[db.attempts[q.attemptId].key].expiresAt <= Now(now, insert)
  {
    hide StripeInv, RetentionInv, HistoryInv, LifecycleInv, CleanupInv, OwnershipInv, FixtureInv, FixtureGuard,
         RowsUsed, UsageEventAllowed, WritingLeaseLasts, HoldsLocks;
    FixtureGuardCodes(db, Now(db.clock, reading), q);
    if FixtureGuard(db, Now(db.clock, reading), q).None? {
      SoundHasOwnership(db);
      OwnerLeaseLasts(db, q.attemptId, Now(Now(db.clock, reading), insert));
      ChargeEventIsAllowed(db, q);
    }
  }

  lemma OwnerHoldsExactlyItsLocks(db: Db, a: Text)
    requires RowsAgree(db) && Owns(db, a)
    ensures var row := db.attempts[a];
            LocksHeld(db.locks, a, db.leases[row.key].fence) ==
            {StripeAccount(row.environment.accountId), SupabaseProject(row.environment.projectRef)}
  {
    forall r | r in LocksHeld(db.locks, a, db.leases[db.attempts[a].key].fence)
      ensures r == StripeAccount(db.attempts[a].environment.accountId) ||
              r == SupabaseProject(db.attempts[a].environment.projectRef)
    {
      assert LockRowAgrees(db, r);
    }
  }

  lemma CleanupGuardCodes(db: Db, now: int, a: Text, fence: nat, verified: bool)
    requires CleanupInv(db)
    ensures var guard := CleanupGuard(db, now, a, fence, verified);
            guard != Some(ConstraintViolation) && guard != Some(CleanupReceiptFenceMismatch)
    ensures CleanupGuard(db, now, a, fence, verified).None? ==>
              a in db.attempts && Owns(db, a) && db.leases[db.attempts[a].key].fence == fence &&
              Terminal(db.attempts[a].phase) &&
              ReservationsOf(db.reservations, a) != {} && a !in db.cleanups
  {
    hide HoldsLocks, OwnerRefusal, HasInFlight, Terminal;
    if a in db.attempts {
      CurrentOwnerOwns(db, a, fence, now);
      OwnerRefusalCodes(db, a, fence, now);
    }
  }

  // An attempt that still owns its rows was never cleaned up, so it has no receipt.
  lemma OwnerHasNoReceipt(db: Db, a: Text)
    requires Sound(db) && Owns(db, a)
    ensures a !in db.cleanups && db.attempts[a].cleanup == Pending
  {
    hide StripeInv, RetentionInv, HistoryInv, LifecycleInv, FixtureInv, HoldsLocks;
    assert LeaseRowAgrees(db, db.attempts[a].key);
  }

  lemma ReceiptMeetsRules(db: Db, now: int, insertedAt: int, a: Text, fence: nat, projection: Text)
    requires Sound(db) && Owns(db, a) && Terminal(db.attempts[a].phase) && fence == db.leases[db.attempts[a].key].fence
    requires ReservationsOf(db.reservations, a) != {}
    ensures CleanupRule(db, insertedAt, a, CleanupReceiptOf(db, now, a, fence, projection)) ==
            if db.leases[db.attempts[a].key].expiresAt <= insertedAt then Some(CleanupReceiptFenceMismatch) else None
  {
    hide StripeInv, RetentionInv, HistoryInv, LifecycleInv, FixtureInv, CleanupInv, LocksHeld, HoldsLocks,
         LeaseRowAgrees, LockRowAgrees, LeaseLasts, Terminal;
    OwnReservationHasOwnScope(db, a);
    OwnerHasNoReceipt(db, a);
    OwnerLeaseLasts(db, a, insertedAt);
    OwnerHoldsExactlyItsLocks(db, a);
    TwoLocks(db.attempts[a].environment);
  }

  lemma CleanupMeetsConstraints(db: Db, reading: int, insert: int, release: int, a: Text, fence: nat, projection: Text,
                                verified: bool)
    requires Sound(db)
    ensures var reply := Cleanup(db, reading, insert, release, a, fence, projection, verified).reply;
            var now := Now(db.clock, reading);
            reply != Denied(ConstraintViolation) && reply != Denied(CleanupReceiptConflict) &&
            (reply == Denied(CleanupReceiptFenceMismatch) <==>
             CleanupGuard(db, now, a, fence, verified).None? &&
             db.leases[db.attempts[a].key].expiresAt <= Now(now, insert))
  {
    hide OwnershipInv, StripeInv, RetentionInv, HistoryInv, LifecycleInv, FixtureInv, CleanupInv, CleanupRule,
         CleanupReceiptOf, Owns, CleanupGuard, Terminal;
    var now := Now(db.clock, reading);
    CleanupGuardCodes(db, now, a, fence, verified);
    CleanupReceiptIsNeverInTheWay(db, now, a, fence, verified);
    if CleanupGuard(db, now, a, fence, verified).None? {
      ReceiptMeetsRules(db, now, Now(now, insert), a, fence, projection);
    }
  }

  lemma CleanupReceiptIsNeverInTheWay(db: Db, now: int, a: Text, fence: nat, verified: bool)
    requires Sound(db)
    ensures CleanupGuard(db, now, a, fence, verified) != Some(CleanupReceiptConflict)
  {
    hide OwnershipInv, StripeInv, RetentionInv, HistoryInv, LifecycleInv, FixtureInv, CleanupInv, HoldsLocks,
         OwnerRefusal, HasInFlight, Terminal;
    if a in db.attempts {
      CurrentOwnerOwns(db, a, fence, now);
      OwnerRefusalCodes(db, a, fence, now);
      if Owns(db, a) { OwnerHasNoReceipt(db, a); }
    }
  }

  lemma TwoLocks(environment: Environment)
    ensures |{StripeAccount(environment.accountId), SupabaseProject(environment.projectRef)}| == 2
  {
  }

  lemma OwnerRefusalCodes(db: Db, a: Text, fence: nat, now: int)
    requires a in db.attempts
    ensures var refusal := OwnerRefusal(db.leases, db.locks, db.attempts[a], a, fence, now);
            refusal.None? || refusal.value == LeaseFenceLost || refusal.value == LeaseExpired
  {
    hide HoldsLocks;
  }
}
