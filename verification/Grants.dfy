// When each request of the control store is granted, said of the tables alone: which of its checks can decide in a
// state that a run can reach, and what a grant is worth afterwards.
module Grants {
  import opened Numbers
  import opened Options
  import opened Records
  import opened Control
  import opened Runs
  import opened Ownership
  import opened History
  import opened Lifecycle
  import opened StripeLedger
  import opened RetentionLedger
  import opened FixtureLedger
  import opened Safety
  import opened Mirrors

  ghost predicate Consistent(db: Db) {
    Sound(db) && LocksMirror(db)
  }

  ghost predicate Reachable(db: Db) {
    exists ops :: AfterAll(EMPTY, ops) == db
  }

  lemma ReachableIsConsistent(db: Db)
    requires Reachable(db)
    ensures Consistent(db)
  {
    hide Sound, LocksMirror, AfterAll;
    var ops :| AfterAll(EMPTY, ops) == db;
    ReachableIsSound(ops);
    ReachableLocksMirror(ops);
  }

  lemma StaysReachable(db: Db, more: seq<Op>)
    requires Reachable(db)
    ensures Reachable(AfterAll(db, more))
  {
    hide AfterAll;
    var ops :| AfterAll(EMPTY, ops) == db;
    RunAppend(EMPTY, ops, more);
  }

  lemma ReachesOn(db: Db, op: Op)
    requires Reachable(db)
    ensures Reachable(Apply(db, op))
  {
    hide Apply, Reachable;
    StaysReachable(db, [op]);
    OneStep(db, op);
  }

  // ---------- The fence check ----------

  // The lease row at the attempt's own key names the attempt under this fence and lasts beyond `now`.
  predicate Current(db: Db, a: Text, fence: nat, now: int) {
    Leases(db, a) && db.leases[db.attempts[a].key].fence == fence && db.leases[db.attempts[a].key].expiresAt > now
  }

  lemma FenceCheck(db: Db, a: Text, fence: nat, now: int)
    requires Consistent(db) && db.clock <= now
    ensures a in db.attempts && OwnerRefusal(db.leases, db.locks, db.attempts[a], a, fence, now).None? <==>
            Current(db, a, fence, now)
    ensures Current(db, a, fence, now) ==> Owns(db, a)
  {
    hide HoldsLocks, RowsAgree, StripeInv, RetentionInv, HistoryInv, LifecycleInv, FixtureInv, CleanupInv, LocksMirror;
    if a in db.attempts { CurrentOwnerOwns(db, a, fence, now); }
  }

  // The lease row alone decides the fence check: an unexpired one is never without its locks.
  lemma FenceCheckReadsTheLease(db: Db, a: Text, fence: nat, now: int)
    requires Reachable(db) && db.clock <= now
    ensures a in db.attempts && OwnerRefusal(db.leases, db.locks, db.attempts[a], a, fence, now).None? <==>
            Current(db, a, fence, now)
    ensures Current(db, a, fence, now) ==> Owns(db, a)
  {
    hide Reachable, Consistent, OwnerRefusal, Owns;
    ReachableIsConsistent(db);
    FenceCheck(db, a, fence, now);
  }

  lemma CheckIsGrantedExactlyWhen(db: Db, reading: int, a: Text, fence: nat)
    requires Reachable(db)
    ensures Accepts(db, Check(reading, a, fence)) <==> Current(db, a, fence, Now(db.clock, reading))
    ensures Accepts(db, ListPending(reading, a, fence)) <==> Current(db, a, fence, Now(db.clock, reading))
    ensures Accepts(db, Mutate(reading, a, fence)) <==>
            Current(db, a, fence, Now(db.clock, reading)) && db.attempts[a].phase != Rechecking &&
            !db.leases[db.attempts[a].key].recoveryOnly
  {
    hide Reachable, Consistent, OwnerRefusal, HoldsLocks;
    ReachableIsConsistent(db);
    FenceCheckReadsTheLease(db, a, fence, Now(db.clock, reading));
  }

  lemma RenewalIsGrantedExactlyWhen(db: Db, reading: int, a: Text, fence: nat, ttl: int)
    requires Reachable(db)
    ensures Accepts(db, Extend(reading, a, fence, ttl)) <==>
            1 <= ttl <= 3600 && Current(db, a, fence, Now(db.clock, reading))
  {
    hide Reachable, Consistent, OwnerRefusal, HoldsLocks;
    ReachableIsConsistent(db);
    FenceCheckReadsTheLease(db, a, fence, Now(db.clock, reading));
  }

  // The moves an owner may make: collecting may end in a collection, rechecking in completion, and what has not ended
  // may be cancelled or time out.
  predicate MoveAllowed(from: Phase, to: Phase) {
    (from == Collecting && to == Collected) || (from == Rechecking && to == Complete) ||
    (from in {Collecting, Collected, Rechecking} && to in {Cancelled, TimedOut})
  }

  lemma MoveIsGrantedExactlyWhen(db: Db, reading: int, a: Text, fence: nat, from: Phase, to: Phase,
                                 artifact: Option<Artifact>, resourceIds: Option<seq<Text>>)
    requires Reachable(db)
    ensures Accepts(db, Move(reading, a, fence, from, to, artifact, resourceIds)) <==>
            Current(db, a, fence, Now(db.clock, reading)) && db.attempts[a].phase == from && MoveAllowed(from, to) &&
            (to == Collected ==> artifact.Some?)
  {
    hide Reachable, Consistent, OwnerRefusal, HoldsLocks;
    ReachableIsConsistent(db);
    FenceCheckReadsTheLease(db, a, fence, Now(db.clock, reading));
  }

  // ---------- Stripe intents ----------

  lemma IntentIsBegunExactlyWhen(db: Db, reading: int, q: IntentRequest, id: Text)
    requires Reachable(db)
    ensures Accepts(db, Begin(reading, q, id)) <==>
            Current(db, q.attemptId, q.fence, Now(db.clock, reading)) &&
            (var row := db.attempts[q.attemptId];
             row.phase != Rechecking && !db.leases[row.key].recoveryOnly &&
             q.candidateSha == row.candidateSha && q.workflow == row.workflow && q.environment == row.environment) &&
            id !in db.intents &&
            forall i :: i in db.intents ==>
              !(db.intents[i].attemptId == q.attemptId && db.intents[i].operation == q.operation) &&
              !(db.intents[i].accountId == q.environment.accountId && db.intents[i].idempotencyKey == q.idempotencyKey)
  {
    hide Reachable, Consistent, OwnerRefusal, HoldsLocks;
    ReachableIsConsistent(db);
    FenceCheckReadsTheLease(db, q.attemptId, q.fence, Now(db.clock, reading));
  }

  // The observation repeats what the intent's request said.
  predicate Repeats(o: Observation, intent: Intent) {
    o.accountId == intent.environment.accountId && o.operation == intent.operation &&
    o.requestDigest == intent.requestDigest && o.idempotencyKey == intent.idempotencyKey
  }

  // The refusal of a receipt under the intent's own fence never decides; an unverified observation always does.
  lemma ReceiptIsGrantedExactlyWhen(db: Db, reading: int, a: Text, fence: nat, id: Text, o: Observation, verified: bool)
    requires Reachable(db)
    ensures Accepts(db, Reconcile(reading, a, fence, id, o, verified)) <==>
            Current(db, a, fence, Now(db.clock, reading)) && id in db.intents && db.intents[id].attemptId == a &&
            id !in db.receipts && Repeats(o, db.intents[id]) &&
            (o.clockDeletesAfter.Some? ==> o.clockDeletesAfter.value > Now(db.clock, reading)) && verified
  {
    hide Reachable, OwnerRefusal, HoldsLocks, OwnershipInv, RetentionInv, HistoryInv, LifecycleInv, FixtureInv,
         CleanupInv, LocksMirror;
    ReachableIsConsistent(db);
    FenceCheckReadsTheLease(db, a, fence, Now(db.clock, reading));
    if Current(db, a, fence, Now(db.clock, reading)) && id in db.intents && db.intents[id].attemptId == a {
      assert IntentNamesItsAttempt(db.attempts, db.intents[id]);
      hide StripeInv;
      if db.attempts[a].phase == Rechecking { RecheckingIntentIsOlder(db, reading, a, fence, id); }
    }
  }

  // ---------- Settlements ----------

  // Every count is one that the source can store, and the attempt itself is counted once.
  predicate Countable(u: Usage, least: int) {
    forall k :: least <= u.At(k) <= MAX_SAFE_INTEGER
  }

  lemma SafeIsCountable(u: Usage, least: int)
    ensures u.Safe(least) <==> Countable(u, least)
  {
    assert u.attempts == u.At(Attempts) && u.databaseRows == u.At(DatabaseRows) && u.authUsers == u.At(AuthUsers) &&
           u.stripeObjects == u.At(StripeObjects);
  }

  lemma WithinIsPerKey(u: Usage, limit: Usage)
    ensures u.Within(limit) <==> forall k :: u.At(k) <= limit.At(k)
  {
    assert u.attempts == u.At(Attempts) && u.databaseRows == u.At(DatabaseRows) && u.authUsers == u.At(AuthUsers) &&
           u.stripeObjects == u.At(StripeObjects);
    assert limit.attempts == limit.At(Attempts) && limit.databaseRows == limit.At(DatabaseRows) &&
           limit.authUsers == limit.At(AuthUsers) && limit.stripeObjects == limit.At(StripeObjects);
  }

  // A settlement needs the lease row but not that it is unexpired. The first one needs the verifier; repeating it needs
  // only that it is the same and that the fence has not changed since.
  lemma SettlementIsGrantedExactlyWhen(db: Db, reading: int, id: Text, outcome: RunOutcome, retained: Usage,
                                       verified: bool)
    requires Reachable(db)
    ensures Accepts(db, Settle(reading, id, outcome, retained, verified)) <==>
            id in db.reservations && Leases(db, db.reservations[id].attemptId) &&
            Countable(retained, 0) && retained.attempts == 1 &&
            if id in db.settlements then
              db.settlements[id].outcome == outcome && db.settlements[id].retained == retained &&
              db.settlements[id].ownerFence == db.leases[db.attempts[db.reservations[id].attemptId].key].fence
            else verified && forall k :: retained.At(k) <= db.reservations[id].projection.At(k)
  {
    hide Reachable, Sound, LocksMirror, SettlementReply, Countable, Leases;
    ReachableIsConsistent(db);
    SettlementReplyExactly(db, Now(db.clock, reading), id, outcome, retained, verified);
  }

  lemma SettlementReplyExactly(db: Db, now: int, id: Text, outcome: RunOutcome, retained: Usage, verified: bool)
    requires Sound(db)
    ensures SettlementReply(db, now, id, outcome, retained, verified).Granted? <==>
            id in db.reservations && Leases(db, db.reservations[id].attemptId) &&
            Countable(retained, 0) && retained.attempts == 1 &&
            if id in db.settlements then
              db.settlements[id].outcome == outcome && db.settlements[id].retained == retained &&
              db.settlements[id].ownerFence == db.leases[db.attempts[db.reservations[id].attemptId].key].fence
            else verified && forall k :: retained.At(k) <= db.reservations[id].projection.At(k)
  {
    hide InHistory, OwnershipInv, StripeInv, HistoryInv, LifecycleInv, FixtureInv, CleanupInv, RetentionInv, Usage.Safe,
         Usage.Within, Countable, ScopeOf;
    SafeIsCountable(retained, 0);
    if id in db.reservations {
      WithinIsPerKey(retained, db.reservations[id].projection);
      ReservationsAgree(db, id);
      if Leases(db, db.reservations[id].attemptId) { LeaseFenceIsInHistory(db, db.reservations[id].attemptId); }
    }
    ScopeNamesProject(db, id);
  }

  lemma ReservationsAgree(db: Db, id: Text)
    requires Sound(db) && id in db.reservations
    ensures ReservationAgrees(db, id)
  {
    hide OwnershipInv, StripeInv, HistoryInv, LifecycleInv, FixtureInv, CleanupInv, ReservationAgrees, SettlementAgrees,
         OneReservationEach, OnePolicyEach, WithinQuotas;
  }

  lemma ScopeNamesProject(db: Db, id: Text)
    requires Sound(db)
    ensures id in db.reservations ==>
              var a := db.reservations[id].attemptId;
              a in db.attempts && db.reservations[id].scope.projectRef == db.attempts[a].environment.projectRef
  {
    hide Sound;
    if id in db.reservations { ReservationsAgree(db, id); }
  }

  // ---------- Metered writes ----------

  // No other claim holds the case, and the slot and the fixture are still free.
  predicate Claimable(db: Db, q: FixtureRequest) requires q.attemptId in db.attempts {
    var row, caseKey := db.attempts[q.attemptId], CaseKey(q.attemptId, q.caseId);
    (caseKey in db.caseClaims ==>
       db.caseClaims[caseKey] ==
       CaseClaim(q.reservationId, q.fence, row.candidateSha, row.environment, q.namespaceId)) &&
    FixtureSlot(q.attemptId, q.caseId, q.kind) !in db.fixtures &&
    forall s :: s in db.fixtures ==> db.fixtures[s] != q.fixtureId
  }

  // The lease must outlast the insert of the claim, and only while collecting may rows be charged.
  lemma ChargeIsGrantedExactlyWhen(db: Db, reading: int, insert: int, q: FixtureRequest, threw: bool)
    requires Reachable(db)
    ensures Accepts(db, Charge(reading, insert, q, threw)) <==>
            Current(db, q.attemptId, q.fence, Now(Now(db.clock, reading), insert)) &&
            db.attempts[q.attemptId].phase == Collecting &&
            q.reservationId in db.reservations && db.reservations[q.reservationId].attemptId == q.attemptId &&
            q.reservationId !in db.settlements && Claimable(db, q) &&
            1 <= q.rows <= db.reservations[q.reservationId].projection.databaseRows - RowsUsed(db.usage,
                                                                                               q.reservationId)
  {
    hide Reachable, Sound, LocksMirror, FixtureMutationWithReservation, Claimable;
    ReachableIsConsistent(db);
    ChargeReply(db, reading, insert, q);
  }

  lemma GuardExactly(db: Db, now: int, q: FixtureRequest)
    requires Consistent(db) && db.clock <= now
    ensures FixtureGuard(db, now, q).None? <==>
            Current(db, q.attemptId, q.fence, now) && db.attempts[q.attemptId].phase == Collecting &&
            q.reservationId in db.reservations && db.reservations[q.reservationId].attemptId == q.attemptId &&
            q.reservationId !in db.settlements &&
            1 <= q.rows <= db.reservations[q.reservationId].projection.databaseRows - RowsUsed(db.usage,
                                                                                               q.reservationId)
  {
    hide OwnerRefusal, HoldsLocks, OwnershipInv, HistoryInv, StripeInv, CleanupInv, LocksMirror, RowsUsed,
         OneReservationEach, OnePolicyEach, WithinQuotas, ChainsContinue, ClaimsAgree, AdmissionFence;
    FenceCheck(db, q.attemptId, q.fence, now);
    if q.reservationId in db.reservations {
      assert ReservationAgrees(db, q.reservationId);
      RowsUsedIsWithinProjection(db.reservations, db.usage, q.reservationId);
    }
    if q.attemptId in db.attempts { assert AttemptStanding(db, q.attemptId); }
  }

  lemma ClaimExactly(db: Db, insertedAt: int, q: FixtureRequest)
    requires Consistent(db) && db.clock <= insertedAt && Owns(db, q.attemptId)
    requires db.leases[db.attempts[q.attemptId].key].fence == q.fence
    requires db.attempts[q.attemptId].phase == Collecting
    requires q.reservationId in db.reservations && db.reservations[q.reservationId].attemptId == q.attemptId
    ensures ClaimRefusal(db, insertedAt, q).None? <==>
            Claimable(db, q) && db.leases[db.attempts[q.attemptId].key].expiresAt > insertedAt
  {
    hide HoldsLocks, OwnershipInv, HistoryInv, StripeInv, CleanupInv, LocksMirror, WritingLeaseLasts,
         OneReservationEach, OnePolicyEach, WithinQuotas, FixtureInv, AdmissionFence;
    assert ReservationAgrees(db, q.reservationId) && AttemptStanding(db, q.attemptId);
    OwnerLeaseLasts(db, q.attemptId, insertedAt);
  }

  lemma ChargeReply(db: Db, reading: int, insert: int, q: FixtureRequest)
    requires Consistent(db)
    ensures var insertedAt := Now(Now(db.clock, reading), insert);
            FixtureMutationWithReservation(db, reading, insert, q).reply.Granted? <==>
            Current(db, q.attemptId, q.fence, insertedAt) && db.attempts[q.attemptId].phase == Collecting &&
            q.reservationId in db.reservations && db.reservations[q.reservationId].attemptId == q.attemptId &&
            q.reservationId !in db.settlements && Claimable(db, q) &&
            1 <= q.rows <= db.reservations[q.reservationId].projection.databaseRows - RowsUsed(db.usage,
                                                                                               q.reservationId)
  {
    hide Sound, LocksMirror, FixtureGuard, ClaimRefusal, Claimable, UsageEventAllowed, RowsUsed, Owns;
    var now := Now(db.clock, reading);
    GuardExactly(db, now, q);
    FenceCheck(db, q.attemptId, q.fence, now);
    if FixtureGuard(db, now, q).None? {
      ClaimExactly(db, Now(now, insert), q);
      SoundHasFixtures(db);
      UsedIsNonnegative(db, q.reservationId);
      ChargeEventIsAllowed(db, q);
    }
  }

  lemma SoundHasFixtures(db: Db)
    requires Sound(db)
    ensures FixtureInv(db) && RetentionInv(db)
  {
    hide FixtureInv, RetentionInv;
  }

  lemma UsedIsNonnegative(db: Db, r: Text)
    requires FixtureInv(db)
    ensures RowsUsed(db.usage, r) >= 0
  {
    RowsUsedIsWithinProjection(db.reservations, db.usage, r);
  }

  // ---------- Cleanup ----------

  // Nothing that the attempt asked of Stripe is without a receipt.
  predicate Idle(db: Db, a: Text) {
    forall i :: i in db.intents && db.intents[i].attemptId == a ==> i in db.receipts
  }

  lemma IdleHasNothingInFlight(db: Db, a: Text)
    ensures Idle(db, a) <==> !HasInFlight(db.intents, db.receipts, a)
    ensures Idle(db, a) <==> PendingIntents(db, a) == {}
  {
    if PendingIntents(db, a) == {} {
      forall i | i in db.intents && db.intents[i].attemptId == a ensures i in db.receipts {
        assert i !in PendingIntents(db, a);
      }
    }
  }

  // The lease must outlast the last of the three clock readings. That the attempt has its reservation and no receipt
  // yet is never in doubt.
  lemma CleanupIsGrantedExactlyWhen(db: Db, reading: int, insert: int, release: int, a: Text, fence: nat,
                                    projection: Text, verified: bool)
    requires Reachable(db)
    ensures Accepts(db, Clean(reading, insert, release, a, fence, projection, verified)) <==>
            Current(db, a, fence, Now(Now(Now(db.clock, reading), insert), release)) &&
            db.attempts[a].phase in {Complete, Cancelled, TimedOut} && Idle(db, a) && verified
  {
    hide Reachable, OwnerRefusal, HoldsLocks, OwnershipInv, HistoryInv, StripeInv, LifecycleInv, FixtureInv, CleanupInv,
         RetentionInv, LocksMirror, HasInFlight, CleanupRule, CleanupReceiptOf, Owns, Idle;
    ReachableIsConsistent(db);
    var now := Now(db.clock, reading);
    IdleHasNothingInFlight(db, a);
    FenceCheck(db, a, fence, now);
    CleanupMeetsConstraints(db, reading, insert, release, a, fence, projection, verified);
    if Current(db, a, fence, now) {
      OwnReservationHasOwnScope(db, a);
      OwnerHasNoReceipt(db, a);
      if CleanupGuard(db, now, a, fence, verified).None? {
        ReceiptMeetsRules(db, now, Now(now, insert), a, fence, projection);
      }
    }
  }

  // ---------- Handing over ----------

  // The lease row at the attempt's key and both its lock rows name it under one fence; they may have expired.
  predicate HoldsRows(db: Db, a: Text) {
    Leases(db, a) &&
    var row := db.attempts[a];
    var account, project := StripeAccount(row.environment.accountId), SupabaseProject(row.environment.projectRef);
    account in db.locks && project in db.locks &&
    db.locks[account].attemptId == db.locks[project].attemptId == a &&
    db.locks[account].fence == db.locks[project].fence == db.leases[row.key].fence
  }

  lemma HoldsRowsOwns(db: Db, a: Text)
    requires Consistent(db)
    ensures HoldsRows(db, a) <==> Owns(db, a)
  {
    hide OwnershipAgrees, HistoryInv, StripeInv, LifecycleInv, FixtureInv, CleanupInv, RetentionInv, LocksMirror,
         RowsAgree;
    if a in db.attempts { OwnsExactlyWhenNamed(db, a); }
    hide Owns;
  }

  predicate SettledUp(db: Db, a: Text) {
    exists r :: r in db.reservations && db.reservations[r].attemptId == a && r in db.settlements
  }

  // The run that takes over is a run of the same repository and ref on the attempt's kind of runner, and not the run
  // that holds the lease.
  predicate MayTakeOver(row: Attempt, holder: Run, current: Workflow) {
    current.run.repository == row.workflow.run.repository && current.run.gitRef == row.workflow.run.gitRef &&
    current.runnerLabel == row.workflow.runnerLabel &&
    (current.run.runId != holder.runId || current.run.runAttempt != holder.runAttempt)
  }

  // A recovery handoff needs the rows, not that they are unexpired; a cleaned-up attempt never holds them.
  lemma RecoveryIsGrantedExactlyWhen(db: Db, reading: int, a: Text, fence: nat, ttl: int, verdict: RecoveryVerdict)
    requires Reachable(db)
    ensures Accepts(db, HandOff(reading, a, fence, ttl, verdict)) <==>
            1 <= ttl <= 3600 && HoldsRows(db, a) && db.leases[db.attempts[a].key].fence == fence &&
            db.attempts[a].phase !in {Collecting, Collected} && !SettledUp(db, a) &&
            (Idle(db, a) ==> db.leases[db.attempts[a].key].recoveryOnly) &&
            verdict.runTerminal && verdict.runnerRemoved && verdict.currentRun.Some? &&
            MayTakeOver(db.attempts[a], db.leases[db.attempts[a].key].run, verdict.currentRun.value) &&
            db.sequence < MAX_FENCE_SEQUENCE
  {
    hide Reachable, Consistent, Sound, RecoveryRefusal, HandoffStripeIntentRecovery, HoldsRows, SettledUp, Idle,
         MayTakeOver;
    ReachableIsConsistent(db);
    RecoveryExactly(db, a, fence, ttl, verdict);
    HandoffReply(db, reading, a, fence, ttl, verdict);
  }

  lemma HandoffReply(db: Db, reading: int, a: Text, fence: nat, ttl: int, verdict: RecoveryVerdict)
    ensures HandoffStripeIntentRecovery(db, reading, a, fence, ttl, verdict).reply.Granted? <==>
            RecoveryRefusal(db, a, fence, ttl, verdict).None?
  {
    hide RecoveryRefusal, WithOwnership, WithAttempt;
    if RecoveryRefusal(db, a, fence, ttl, verdict).None? { NoRecoveryRefusal(db, a, fence, ttl, verdict); }
  }

  lemma NoRecoveryRefusal(db: Db, a: Text, fence: nat, ttl: int, verdict: RecoveryVerdict)
    requires RecoveryRefusal(db, a, fence, ttl, verdict).None?
    ensures a in db.attempts && db.attempts[a].key in db.leases && verdict.currentRun.Some?
  {
    hide HoldsLocks, PendingIntents, Settled, ReservationsOf;
  }

  lemma RecoveryExactly(db: Db, a: Text, fence: nat, ttl: int, verdict: RecoveryVerdict)
    requires Consistent(db)
    ensures RecoveryRefusal(db, a, fence, ttl, verdict).None? <==>
            1 <= ttl <= 3600 && HoldsRows(db, a) && db.leases[db.attempts[a].key].fence == fence &&
            db.attempts[a].phase !in {Collecting, Collected} && !SettledUp(db, a) &&
            (Idle(db, a) ==> db.leases[db.attempts[a].key].recoveryOnly) &&
            verdict.runTerminal && verdict.runnerRemoved && verdict.currentRun.Some? &&
            MayTakeOver(db.attempts[a], db.leases[db.attempts[a].key].run, verdict.currentRun.value) &&
            db.sequence < MAX_FENCE_SEQUENCE
  {
    hide HoldsLocks, HoldsRows, Idle, HistoryInv, StripeInv, LifecycleInv, FixtureInv, RetentionInv, LocksMirror,
         PendingIntents, OwnershipAgrees, LockRowAgrees, ReservationsOf, SettledUp, Settled;
    HoldsRowsOwns(db, a);
    IdleHasNothingInFlight(db, a);
    SettledUpIsSettled(db, a);
    if a in db.attempts {
      OwnReservationHasOwnScope(db, a);
      if Owns(db, a) {
        OwnerHasNoReceipt(db, a);
        assert LeaseRowAgrees(db, db.attempts[a].key);
      }
    }
  }

  lemma SettledUpIsSettled(db: Db, a: Text)
    ensures SettledUp(db, a) <==> Settled(db.reservations, db.settlements, a)
  {
    if SettledUp(db, a) {
      var r :| r in db.reservations && db.reservations[r].attemptId == a && r in db.settlements;
      assert r in ReservationsOf(db.reservations, a);
    }
  }

  // A recheck repeats everything the attempt was recorded with, from a new run of the same repository and ref.
  predicate SameRecord(row: Attempt, q: RecheckRequest) {
    q.artifact == row.artifact && q.workflow == row.workflow && q.environment == row.environment &&
    q.candidateSha == row.candidateSha && q.currentHeadSha == q.candidateSha &&
    q.recheckRun.repository == row.workflow.run.repository && q.recheckRun.gitRef == row.workflow.run.gitRef &&
    q.recheckRun.runId != row.workflow.run.runId && q.recheckRun.runAttempt >= 1
  }

  lemma RecheckIsGrantedExactlyWhen(db: Db, reading: int, a: Text, q: RecheckRequest, resumable: bool,
                                    snapshotSealed: bool)
    requires Reachable(db)
    ensures Accepts(db, Recheck(reading, a, q, resumable, snapshotSealed)) <==>
            HoldsRows(db, a) && db.attempts[a].phase == Collected && Idle(db, a) && SameRecord(db.attempts[a], q) &&
            resumable && snapshotSealed && 1 <= q.ttl <= 3600 && db.sequence < MAX_FENCE_SEQUENCE
  {
    hide Reachable, Sound, LocksMirror, HoldsRows, Idle, HoldsLocks, HasInFlight, WithOwnership, WithAttempt;
    ReachableIsConsistent(db);
    HoldsRowsOwns(db, a);
    IdleHasNothingInFlight(db, a);
  }

  // ---------- Admission ----------

  predicate RequestValid(q: AdmissionRequest, expected: Option<Environment>) {
    Countable(q.quotas, 1) && Countable(q.projection, 0) && q.projection.attempts == 1 && 1 <= q.ttl <= 3600 &&
    q.key.projectRef == q.environment.projectRef && (expected.Some? ==> expected.value == q.environment)
  }

  // All reservations of the scope are under the quotas asked for, and the projection fits beside what they are charged.
  ghost predicate RoomFor(db: Db, q: AdmissionRequest) {
    (forall r :: r in db.reservations && db.reservations[r].scope == ScopeOf(q.environment) ==>
       db.reservations[r].quotas == q.quotas) &&
    forall k :: Charged(db, ScopeOf(q.environment)).At(k) + q.projection.At(k) <= q.quotas.At(k)
  }

  // The attempts that the wanted rows name: those of the two lock rows and that of the key's lease row.
  predicate Named(db: Db, q: AdmissionRequest, a: Text) {
    var account, project := StripeAccount(q.environment.accountId), SupabaseProject(q.environment.projectRef);
    (account in db.locks && db.locks[account].attemptId == a) ||
    (project in db.locks && db.locks[project].attemptId == a) ||
    (q.key in db.leases && db.leases[q.key].attemptId == a)
  }

  // A lock row may be taken once it has expired, as long as the lease row it goes with is still there.
  predicate LockFree(db: Db, now: int, r: Resource) {
    r in db.locks ==> db.locks[r].expiresAt <= now && Backed(db, r)
  }

  // A lease row may be taken once it has expired, as long as one of the wanted lock rows goes with it.
  predicate KeyFree(db: Db, now: int, q: AdmissionRequest) {
    q.key in db.leases ==>
      db.leases[q.key].expiresAt <= now &&
      (NamesLease(db.locks, StripeAccount(q.environment.accountId), db.leases[q.key]) ||
       NamesLease(db.locks, SupabaseProject(q.environment.projectRef), db.leases[q.key]))
  }

  lemma LockFreeExactly(db: Db, key: Key, now: int, r: Resource)
    requires RowsAgree(db) && LocksMirror(db)
    ensures PriorLockRefusal(db, key, now, r).None? <==> LockFree(db, now, r)
  {
    if r in db.locks {
      assert LockRowAgrees(db, r) && LockMirrors(db, r);
      if key in db.leases { assert LeaseRowAgrees(db, key); }
    }
  }

  lemma KeyFreeExactly(db: Db, now: int, q: AdmissionRequest)
    requires RowsAgree(db)
    ensures KeyFree(db, now, q) <==>
            PriorLeaseRefusal(db, q.key, q.environment).None? &&
            (q.key in db.leases ==> db.leases[q.key].expiresAt <= now)
  {
    hide LockRowAgrees;
    if q.key in db.leases { assert LeaseRowAgrees(db, q.key); }
  }

  lemma {:induction false} TotalIsNonnegative(entries: map<Text, Usage>)
    requires forall r :: r in entries ==> entries[r].Safe(0)
    ensures forall k :: Total(entries).At(k) >= 0
    decreases |entries|
  {
    if entries == map[] {
    } else {
      var r :| r in entries;
      TotalWithout(entries, r);
      TotalIsNonnegative(entries - {r});
      NonnegativeSum(entries[r], Total(entries - {r}));
    }
  }

  lemma NonnegativeSum(one: Usage, other: Usage)
    requires one.Safe(0) && forall k :: other.At(k) >= 0
    ensures forall k :: one.Plus(other).At(k) >= 0
  {
    assert forall k :: one.Plus(other).At(k) == one.At(k) + other.At(k);
  }

  // What a scope is charged can be stored, because it stays within quotas that can.
  lemma TotalsAreSafe(db: Db, scope: Scope)
    requires RetentionInv(db)
    ensures Total(Retained(db.settlements, scope)).Safe(0)
    ensures Total(Outstanding(db.reservations, db.settlements, scope)).Safe(0)
  {
    hide Total, OneReservationEach, OnePolicyEach;
    var retained, outstanding := Retained(db.settlements, scope), Outstanding(db.reservations, db.settlements, scope);
    forall r | r in retained ensures retained[r].Safe(0) && ScopeReservations(db, scope) != {} {
      assert SettlementAgrees(db, r);
      assert r in ScopeReservations(db, scope);
    }
    forall r | r in outstanding ensures outstanding[r].Safe(0) && ScopeReservations(db, scope) != {} {
      assert ReservationAgrees(db, r);
      assert r in ScopeReservations(db, scope);
    }
    TotalIsNonnegative(retained);
    TotalIsNonnegative(outstanding);
    if ScopeReservations(db, scope) == {} {
      assert retained == map[] && outstanding == map[];
      assert Total(map[]) == NO_USAGE by { NothingTotals(); }
    } else {
      var r :| r in ScopeReservations(db, scope);
      assert ReservationAgrees(db, r) && Charged(db, scope).Within(db.reservations[r].quotas);
      PartsAreSafe(Total(retained), Total(outstanding), db.reservations[r].quotas);
    }
  }

  lemma PartsAreSafe(one: Usage, other: Usage, quotas: Usage)
    requires (forall k :: one.At(k) >= 0) && (forall k :: other.At(k) >= 0)
    requires one.Plus(other).Within(quotas) && quotas.Safe(1)
    ensures one.Safe(0) && other.Safe(0)
  {
    assert one.At(Attempts) >= 0 && one.At(DatabaseRows) >= 0 && one.At(AuthUsers) >= 0 && one.At(StripeObjects) >= 0;
    assert other.At(Attempts) >= 0 && other.At(DatabaseRows) >= 0 && other.At(AuthUsers) >= 0 &&
           other.At(StripeObjects) >= 0;
  }

  lemma NothingTotals()
    ensures Total(map[]) == NO_USAGE
  {
  }

  lemma SumIsPerKey(charged: Usage, projection: Usage, quotas: Usage)
    ensures (forall k :: charged.At(k) + projection.At(k) <= quotas.At(k)) <==> charged.Plus(projection).Within(quotas)
  {
    WithinIsPerKey(charged.Plus(projection), quotas);
    assert forall k :: charged.Plus(projection).At(k) == charged.At(k) + projection.At(k);
  }

  lemma RoomIsWithin(db: Db, q: AdmissionRequest)
    ensures RoomFor(db, q) <==>
            (forall r :: r in db.reservations && db.reservations[r].scope == ScopeOf(q.environment) ==>
               db.reservations[r].quotas == q.quotas) &&
            Charged(db, ScopeOf(q.environment)).Plus(q.projection).Within(q.quotas)
  {
    hide Charged, Usage.Within;
    SumIsPerKey(Charged(db, ScopeOf(q.environment)), q.projection, q.quotas);
  }

  lemma RoomExactly(db: Db, q: AdmissionRequest)
    requires RetentionInv(db) && ValidRetention(q.quotas, q.projection)
    ensures var scope := ScopeOf(q.environment);
            RetentionCapacity(Total(Retained(db.settlements, scope)),
                              Total(Outstanding(db.reservations, db.settlements, scope)),
                              Policies(db.reservations, scope), q.quotas, q.projection).Granted? <==>
            RoomFor(db, q)
  {
    hide RetentionInv, Total, Usage.Safe, Usage.Within, RetentionCapacity, Retained, Outstanding, RoomFor;
    var scope := ScopeOf(q.environment);
    var committed, reserved := Total(Retained(db.settlements, scope)),
      Total(Outstanding(db.reservations, db.settlements, scope));
    TotalsAreSafe(db, scope);
    CapacityIsExact(committed, reserved, Policies(db.reservations, scope), q.quotas, q.projection);
    RoomIsWithin(db, q);
    PoliciesAreShared(db, scope, q.quotas);
  }

  lemma PoliciesAreShared(db: Db, scope: Scope, quotas: Usage)
    ensures Policies(db.reservations, scope) <= {quotas} <==>
            forall r :: r in db.reservations && db.reservations[r].scope == scope ==>
              db.reservations[r].quotas == quotas
  {
    if Policies(db.reservations, scope) <= {quotas} {
      forall r | r in db.reservations && db.reservations[r].scope == scope ensures db.reservations[r].quotas == quotas {
        assert db.reservations[r].quotas in Policies(db.reservations, scope);
      }
    }
  }

  // The recovery verifier confirmed the attempt, and it has nothing in flight and nothing unsettled.
  predicate Replaceable(db: Db, a: Text, recovered: set<Text>) {
    a in recovered && Idle(db, a) && SettledUp(db, a)
  }

  lemma OwnersExactly(db: Db, q: AdmissionRequest, recovered: set<Text>)
    ensures (exists b :: b in PriorOwners(db, q.key, q.environment) && !MayReplace(db, b, recovered)) <==>
            !forall a :: Named(db, q, a) ==> Replaceable(db, a, recovered)
  {
    forall a
      ensures a in PriorOwners(db, q.key, q.environment) <==> Named(db, q, a)
      ensures MayReplace(db, a, recovered) <==> Replaceable(db, a, recovered)
    {
      IdleHasNothingInFlight(db, a);
      SettledUpIsSettled(db, a);
    }
    hide PriorOwners, Named, MayReplace, Replaceable;
  }

  // A new attempt is admitted exactly when the request is valid and has room, the key and both resources are free,
  // every attempt that the rows on them name may be replaced, and the identifiers drawn are new.
  lemma AdmissionIsGrantedExactlyWhen(db: Db, reading: int, expected: Option<Environment>, q: AdmissionRequest,
                                      recovered: set<Text>, id: Text)
    requires Reachable(db) && q.attemptId !in db.attempts
    ensures var now := Now(db.clock, reading);
            Accepts(db, Admit(reading, expected, q, recovered, id)) <==>
            RequestValid(q, expected) && RoomFor(db, q) && KeyFree(db, now, q) &&
            LockFree(db, now, StripeAccount(q.environment.accountId)) &&
            LockFree(db, now, SupabaseProject(q.environment.projectRef)) &&
            (forall a :: Named(db, q, a) ==> Replaceable(db, a, recovered)) &&
            db.sequence < MAX_FENCE_SEQUENCE && id !in db.reservations
  {
    hide Reachable, OwnershipInv, HistoryInv, StripeInv, LifecycleInv, FixtureInv, CleanupInv, RetentionInv,
         LocksMirror, RetentionCapacity, PriorLockRefusal, PriorLeaseRefusal, PriorOwners, MayReplace, KeyFree,
         LockFree, Named, Replaceable, RoomFor, Total, Retained, Outstanding, Policies, AdmissionCapacity,
         AfterAdmission, Usage.Safe, ReservationsOf, Countable;
    ReachableIsConsistent(db);
    SoundHasOwnership(db);
    SoundHasFixtures(db);
    var now := Now(db.clock, reading);
    SafeIsCountable(q.quotas, 1);
    SafeIsCountable(q.projection, 0);
    LockFreeExactly(db, q.key, now, StripeAccount(q.environment.accountId));
    LockFreeExactly(db, q.key, now, SupabaseProject(q.environment.projectRef));
    KeyFreeExactly(db, now, q);
    OwnersExactly(db, q, recovered);
    NewAttemptHasNoReservation(db, q.attemptId);
    if ValidRetention(q.quotas, q.projection) { RoomExactly(db, q); }
  }

  lemma NewAttemptHasNoReservation(db: Db, a: Text)
    requires RetentionInv(db) && a !in db.attempts
    ensures ReservationsOf(db.reservations, a) == {}
  {
    hide OneReservationEach, OnePolicyEach, WithinQuotas, SettlementAgrees;
    forall r | r in db.reservations ensures db.reservations[r].attemptId != a {
      assert ReservationAgrees(db, r);
    }
  }

  // No takeover without the recovery verifier: every attempt that the wanted rows name was confirmed, has let its lease
  // expire, and has nothing in flight and nothing unsettled.
  lemma TakeoverNeedsRecovery(db: Db, op: Op, a: Text)
    requires Reachable(db) && op.Admit? && Accepts(db, op) && op.admission.attemptId !in db.attempts
    requires Named(db, op.admission, a)
    ensures a in op.recovered && a in db.attempts && Leases(db, a) &&
            db.leases[db.attempts[a].key].expiresAt <= Now(db.clock, op.reading) &&
            (forall i :: i in db.intents && db.intents[i].attemptId == a ==> i in db.receipts) &&
            exists r :: r in db.reservations && db.reservations[r].attemptId == a && r in db.settlements
  {
    hide Reachable, Accepts, RoomFor, RequestValid, OwnershipAgrees, HistoryInv, StripeInv, LifecycleInv, FixtureInv,
         CleanupInv, RetentionInv;
    ReachableIsConsistent(db);
    AdmissionIsGrantedExactlyWhen(db, op.reading, op.expected, op.admission, op.recovered, op.newReservationId);
    assert Replaceable(db, a, op.recovered);
    assert forall r :: r in db.locks ==> LockRowAgrees(db, r) && LockMirrors(db, r);
    if op.admission.key in db.leases { assert LeaseRowAgrees(db, op.admission.key); }
  }

  // A repeated admission is granted exactly while the attempt still collects under the lease and the reservation that
  // its admission gave it.
  lemma ReplayIsGrantedExactlyWhen(db: Db, reading: int, expected: Option<Environment>, q: AdmissionRequest,
                                   recovered: set<Text>, id: Text)
    requires Reachable(db) && q.attemptId in db.attempts
    ensures Accepts(db, Admit(reading, expected, q, recovered, id)) <==>
            RequestValid(q, expected) &&
            (var row := db.attempts[q.attemptId];
             row.key == q.key && row.candidateSha == q.candidateSha && row.workflow == q.workflow &&
             row.environment == q.environment && row.phase == Collecting && Leases(db, q.attemptId) &&
             db.leases[q.key].expiresAt > Now(db.clock, reading) && db.leases[q.key].run == q.workflow.run) &&
            exists r :: r in db.reservations && db.reservations[r].attemptId == q.attemptId && r !in db.settlements &&
              db.reservations[r].quotas == q.quotas && db.reservations[r].projection == q.projection
  {
    hide Reachable, HistoryInv, StripeInv, LifecycleInv, FixtureInv, CleanupInv, LocksMirror, HoldsLocks, Usage.Safe,
         OwnershipInv, RetentionInv, ReservationsOf, Countable, AdmissionRefusal, AfterAdmission, AdmissionCapacity;
    ReachableIsConsistent(db);
    SafeIsCountable(q.quotas, 1);
    SafeIsCountable(q.projection, 0);
    var now := Now(db.clock, reading);
    OwnReservationHasOwnScope(db, q.attemptId);
    if SameIdentity(db.attempts[q.attemptId], q) { ReplayLease(db, now, q); }
    ReplayReservation(db, q.attemptId);
  }

  lemma ReplayLease(db: Db, now: int, q: AdmissionRequest)
    requires Consistent(db) && db.clock <= now && q.attemptId in db.attempts &&
             SameIdentity(db.attempts[q.attemptId], q)
    ensures q.key in db.leases && db.leases[q.key].attemptId == q.attemptId && db.leases[q.key].expiresAt > now ==>
              HoldsLocks(db.locks, db.attempts[q.attemptId], db.leases[q.key], q.attemptId, db.leases[q.key].fence) &&
              db.leases[q.key].candidateSha == q.candidateSha
  {
    hide HoldsLocks, StripeInv, RetentionInv, HistoryInv, LifecycleInv, FixtureInv, CleanupInv, LocksMirror,
         LockRowAgrees;
    if q.key in db.leases { assert LeaseRowAgrees(db, q.key); }
  }

  lemma ReplayReservation(db: Db, a: Text)
    requires Sound(db) && ReservationsOf(db.reservations, a) != {}
    ensures var r := ReservationOf(db.reservations, a);
            forall s :: s in db.reservations && db.reservations[s].attemptId == a <==> s == r
  {
    hide OwnershipInv, StripeInv, HistoryInv, LifecycleInv, FixtureInv, CleanupInv, ReservationAgrees, SettlementAgrees,
         OnePolicyEach, WithinQuotas;
    var r := ReservationOf(db.reservations, a);
  }
}
