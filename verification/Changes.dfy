// Every operation changes ownership in one of five ways.
module Changes {
  import opened Options
  import opened Records
  import opened Control
  import opened Runs
  import opened Ownership

  datatype Change =
    | Leave
    | MoveRow(attemptId: Text, row: Attempt)
    | Rewrite(attemptId: Text, row: Attempt, lease: Lease, kind: LeaseEventKind)
    | Enter(now: int, admission: AdmissionRequest)
    | Release(attemptId: Text, row: Attempt)

  // The change that an accepted operation makes.
  ghost function ChangeOf(db: Db, op: Op): Change {
    if !Accepts(db, op) then Leave
    else
      match op
      case Admit(reading, _, q, _, _) => if q.attemptId in db.attempts then Leave else Enter(Now(db.clock, reading), q)
      case HandOff(reading, a, _, ttl, verdict) =>
        var row := db.attempts[a];
        Rewrite(a, row.(phase := Rechecking, updatedAt := Now(db.clock, reading)),
                db.leases[row.key].(fence := db.sequence + 1, recoveryOnly := true,
                                    expiresAt := Now(db.clock, reading) + ttl,
                                    run := verdict.currentRun.value.run), RecoveryHandoff)
      case Recheck(reading, a, q, _, _) =>
        var row := db.attempts[a];
        Rewrite(a, row.(phase := Rechecking, updatedAt := Now(db.clock, reading)),
                db.leases[row.key].(fence := db.sequence + 1, expiresAt := Now(db.clock, reading) + q.ttl,
                                    candidateSha := q.candidateSha, run := q.recheckRun), RecheckHandoff)
      case Extend(reading, a, _, ttl) =>
        Rewrite(a, db.attempts[a], db.leases[db.attempts[a].key].(expiresAt := Now(db.clock, reading) + ttl), Renewed)
      case Move(reading, a, f, from, to, artifact, ids) =>
        MoveRow(a, Transition(db, reading, a, f, from, to, artifact, ids).reply.value)
      case Clean(reading, _, _, a, _, _, _) =>
        Release(a, db.attempts[a].(cleanup := Done, updatedAt := Now(db.clock, reading)))
      case _ => Leave
  }

  ghost predicate SameFixtureRows(db: Db, after: Db) {
    after.usage == db.usage && after.caseClaims == db.caseClaims && after.fixtures == db.fixtures
  }

  ghost predicate SameLedgers(db: Db, after: Db) {
    after.reservations == db.reservations && after.settlements == db.settlements && SameFixtureRows(db, after)
  }

  // Intents settle only under an unexpired lease.
  ghost predicate SettlesOnlyUnexpired(db: Db, after: Db) {
    forall i :: i in db.intents && i !in db.receipts && i in after.receipts ==>
      var a := db.intents[i].attemptId;
      Owns(db, a) && db.leases[db.attempts[a].key].expiresAt > db.clock
  }

  predicate Unexpired(db: Db, key: Key) {
    key in db.leases && db.leases[key].expiresAt > db.clock
  }

  ghost predicate Makes(db: Db, after: Db, change: Change) {
    after.cleanups.Keys == db.cleanups.Keys + (if change.Release? then {change.attemptId} else {}) &&
    match change
    case Leave => LeavesOwnership(db, after) && SettlesOnlyUnexpired(db, after) && after.history == db.history
    case MoveRow(a, row) =>
      MovesAttempt(db, after, a, row) && Owns(db, a) && Unexpired(db, row.key) &&
      MayMove(db.attempts[a].phase, row.phase) &&
      SameLedgers(db, after) && after.history == db.history
    case Rewrite(a, row, lease, kind) =>
      RewritesOwnership(db, after, a, row, lease) &&
      (kind == Renewed || kind == RecheckHandoff || kind == RecoveryHandoff) &&
      (if kind == Renewed then lease.fence == db.leases[row.key].fence && lease.run == db.leases[row.key].run &&
                               lease.recoveryOnly == db.leases[row.key].recoveryOnly && row == db.attempts[a] &&
                               Unexpired(db, row.key)
       else db.sequence < lease.fence && row == db.attempts[a].(phase := Rechecking, updatedAt := row.updatedAt) &&
            (if kind == RecheckHandoff then
               db.attempts[a].phase == Collected && !HasInFlight(db.intents, db.receipts, a) &&
               lease.recoveryOnly == db.leases[row.key].recoveryOnly
             else lease.recoveryOnly && db.attempts[a].phase != Collecting && db.attempts[a].phase != Collected)) &&
      SameLedgers(db, after) && after.history == db.history + [EventOf(kind, row.key, lease)]
    case Enter(now, q) =>
      AdmitsOwner(db, after, now, q, after.sequence) && Vacant(db, now, q.key, q.environment) &&
      q.key.projectRef == q.environment.projectRef && after.settlements == db.settlements &&
      SameFixtureRows(db, after) &&
      after.history ==
        db.history +
          [EventOf(if q.key in db.leases then Takeover else Acquired, q.key, FreshLease(q, after.sequence, now))]
    case Release(a, row) =>
      ReleasesOwnership(db, after, a, row) && Unexpired(db, row.key) && SameLedgers(db, after) &&
      after.history == db.history + [EventOf(Released, row.key, db.leases[row.key])]
  }

  lemma PrepareEnters(db: Db, reading: int, expected: Option<Environment>, q: AdmissionRequest, recovered: set<Text>,
                      id: Text)
    requires RowsAgree(db) && q.attemptId !in db.attempts
    requires Prepare(db, reading, expected, q, recovered, id).reply.Granted?
    ensures var after := Prepare(db, reading, expected, q, recovered, id).db;
            Makes(db, after, Enter(Now(db.clock, reading), q)) && after.sequence == db.sequence + 1
  {
    hide AdmissionRefusal, AdmissionCapacity, RowsAgree, Vacant, PriorOwners, Retired, Owns, MayReplace;
    PriorOwnersAreIdle(db, Now(db.clock, reading), q, recovered, id);
  }

  function HandoffRow(db: Db, reading: int, a: Text): Attempt requires a in db.attempts {
    db.attempts[a].(phase := Rechecking, updatedAt := Now(db.clock, reading))
  }

  lemma HandoffRewrites(db: Db, reading: int, a: Text, fence: nat, ttl: int, verdict: RecoveryVerdict)
    requires RowsAgree(db)
    requires HandoffStripeIntentRecovery(db, reading, a, fence, ttl, verdict).reply.Granted?
    ensures a in db.attempts && db.attempts[a].key in db.leases && verdict.currentRun.Some?
    ensures var lease := db.leases[db.attempts[a].key].(
                fence := db.sequence + 1, recoveryOnly := true, expiresAt := Now(db.clock, reading) + ttl,
                run := verdict.currentRun.value.run);
            Makes(db, HandoffStripeIntentRecovery(db, reading, a, fence, ttl, verdict).db,
                  Rewrite(a, HandoffRow(db, reading, a), lease, RecoveryHandoff))
  {
    hide HoldsLocks, LockRowAgrees, PendingIntents, Settled, ReservationsOf;
    assert LeaseRowAgrees(db, db.attempts[a].key);
  }

  lemma RecheckRewrites(db: Db, reading: int, a: Text, q: RecheckRequest, resumable: bool, snapshotSealed: bool)
    requires RowsAgree(db)
    requires ResumeRecheck(db, reading, a, q, resumable, snapshotSealed).reply.Granted?
    ensures a in db.attempts && db.attempts[a].key in db.leases
    ensures var lease := db.leases[db.attempts[a].key].(
                fence := db.sequence + 1, expiresAt := Now(db.clock, reading) + q.ttl, candidateSha := q.candidateSha,
                run := q.recheckRun);
            Makes(db, ResumeRecheck(db, reading, a, q, resumable, snapshotSealed).db,
                  Rewrite(a, HandoffRow(db, reading, a), lease, RecheckHandoff))
  {
    hide HoldsLocks, LockRowAgrees, HasInFlight;
    assert LeaseRowAgrees(db, db.attempts[a].key);
  }

  lemma RenewRewrites(db: Db, reading: int, a: Text, fence: nat, ttl: int)
    requires RowsAgree(db) && Renew(db, reading, a, fence, ttl).reply.Granted?
    ensures a in db.attempts && db.attempts[a].key in db.leases
    ensures Makes(db, Renew(db, reading, a, fence, ttl).db,
                  Rewrite(a, db.attempts[a],
                          db.leases[db.attempts[a].key].(expiresAt := Now(db.clock, reading) + ttl), Renewed))
  {
    hide HoldsLocks, OwnerRefusal, LockRowAgrees;
    CurrentOwnerOwns(db, a, fence, Now(db.clock, reading));
    assert LeaseRowAgrees(db, db.attempts[a].key);
  }

  lemma TransitionMoves(db: Db, reading: int, a: Text, fence: nat, from: Phase, to: Phase, artifact: Option<Artifact>,
                        resourceIds: Option<seq<Text>>)
    requires Transition(db, reading, a, fence, from, to, artifact, resourceIds).reply.Granted?
    ensures Makes(db, Transition(db, reading, a, fence, from, to, artifact, resourceIds).db,
                  ChangeOf(db, Move(reading, a, fence, from, to, artifact, resourceIds)))
  {
    hide HoldsLocks, OwnerRefusal;
    CurrentOwnerOwns(db, a, fence, Now(db.clock, reading));
  }

  lemma CleanupReleases(db: Db, reading: int, insert: int, release: int, a: Text, fence: nat, projection: Text,
                        verified: bool)
    requires Cleanup(db, reading, insert, release, a, fence, projection, verified).reply.Granted?
    ensures Makes(db, Cleanup(db, reading, insert, release, a, fence, projection, verified).db,
                  ChangeOf(db, Clean(reading, insert, release, a, fence, projection, verified)))
  {
    hide HoldsLocks, OwnerRefusal, LocksHeld, HasInFlight, ReservationsOf, CleanupRule, ScopeOf;
    CurrentOwnerOwns(db, a, fence, Now(db.clock, reading));
  }

  // ---------- Operations that touch no ownership row ----------

  lemma ReplayTouchesClock(db: Db, reading: int, expected: Option<Environment>, q: AdmissionRequest,
                           recovered: set<Text>, id: Text)
    requires q.attemptId in db.attempts
    ensures var after := Prepare(db, reading, expected, q, recovered, id).db;
            after == db || after == db.(clock := Now(db.clock, reading))
  {
    hide ReplayReply, AdmissionRefusal, AfterAdmission;
  }

  lemma SettlementTouchesItsTable(db: Db, reading: int, id: Text, outcome: RunOutcome, retained: Usage, verified: bool)
    ensures var after := ReconcileReservation(db, reading, id, outcome, retained, verified).db;
            db.clock <= after.clock && after == db.(clock := after.clock, settlements := after.settlements)
  {
    hide SettlementReply;
  }

  lemma BeginTouchesIntents(db: Db, reading: int, q: IntentRequest, id: Text)
    ensures var out := BeginStripeIntent(db, reading, q, id);
            out.db == db ||
            (db.clock <= out.db.clock && out.reply.Granted? && id !in db.intents &&
             out.db == db.(clock := out.db.clock, intents := db.intents[id := out.reply.value]))
  {
    hide OwnerRefusal, OperationTaken, IdempotencyTaken;
  }

  lemma BegunIntentIsItsOwners(db: Db, reading: int, q: IntentRequest, id: Text)
    requires BeginStripeIntent(db, reading, q, id).reply.Granted?
    ensures BegunByOwner(db, BeginStripeIntent(db, reading, q, id).reply.value)
  {
    hide HoldsLocks, OwnerRefusal, OperationTaken, IdempotencyTaken;
    CurrentOwnerOwns(db, q.attemptId, q.fence, Now(db.clock, reading));
  }

  lemma ReconcileTouchesReceipts(db: Db, reading: int, a: Text, fence: nat, id: Text, o: Observation, verified: bool)
    ensures var out := ReconcileStripeIntent(db, reading, a, fence, id, o, verified);
            db.clock <= out.db.clock &&
            if out.reply.Granted? then
              out.db == db.(clock := out.db.clock, receipts := db.receipts[id := out.reply.value])
            else out.db == db
  {
    hide OwnerRefusal;
  }

  lemma GrantedReceiptIsItsOwners(db: Db, reading: int, a: Text, fence: nat, id: Text, o: Observation, verified: bool)
    requires ReconcileStripeIntent(db, reading, a, fence, id, o, verified).reply.Granted?
    ensures id in db.intents && db.intents[id].attemptId == a && Owns(db, a) && Unexpired(db, db.attempts[a].key)
  {
    hide HoldsLocks, OwnerRefusal;
    CurrentOwnerOwns(db, a, fence, Now(db.clock, reading));
  }

  lemma ChargeTouchesFixtures(db: Db, reading: int, insert: int, q: FixtureRequest)
    ensures var after := FixtureMutationWithReservation(db, reading, insert, q).db;
            db.clock <= after.clock &&
            after == db.(clock := after.clock, caseClaims := after.caseClaims, fixtures := after.fixtures,
                         usage := after.usage)
  {
    hide FixtureRefusal, RowsUsed;
  }

  ghost predicate KeepsOwnershipRows(db: Db, after: Db) {
    SettlesOnlyUnexpired(db, after) &&
    db.clock <= after.clock && db.sequence <= after.sequence &&
    after == db.(clock := after.clock, sequence := after.sequence, settlements := after.settlements,
                 receipts := after.receipts,
                 caseClaims := after.caseClaims, fixtures := after.fixtures, usage := after.usage) &&
    db.receipts.Keys <= after.receipts.Keys
  }

  lemma OtherWritesLeave(db: Db, after: Db)
    requires KeepsOwnershipRows(db, after)
    ensures Makes(db, after, Leave)
  {
  }

  lemma AddingAnIntentLeaves(db: Db, after: Db, id: Text, intent: Intent)
    requires BegunByOwner(db, intent) && db.clock <= after.clock
    requires after == db.(clock := after.clock, intents := db.intents[id := intent]) && id !in db.intents
    ensures Makes(db, after, Leave)
  {
  }

  lemma DeniedLeavesEverything(db: Db, op: Op)
    requires !Accepts(db, op)
    ensures Apply(db, op) == db
  {
    hide OwnerRefusal, RecoveryRefusal, RecheckRefusal, CleanupGuard, CleanupRule, CleanupReceiptOf, FixtureRefusal,
         AdmissionRefusal, ReplayReply, AfterAdmission, AfterHandoff, WithOwnership, WithAttempt;
  }

  lemma AcceptedOwnershipOperation(db: Db, op: Op)
    requires RowsAgree(db) && Accepts(db, op)
    requires op.HandOff? || op.Recheck? || op.Extend? || op.Move? || op.Clean?
    ensures Makes(db, Apply(db, op), ChangeOf(db, op))
  {
    hide Makes, RowsAgree, Prepare, ReconcileReservation, AssertFence, ListPendingStripeIntents, MayMutateFixtures,
         BeginStripeIntent, ReconcileStripeIntent, HandoffStripeIntentRecovery, ResumeRecheck, Renew, Transition,
         Cleanup, FixtureMutationWithReservation;
    match op
    case HandOff(reading, a, f, ttl, verdict) => HandoffRewrites(db, reading, a, f, ttl, verdict);
    case Recheck(reading, a, q, resumable, isSealed) => RecheckRewrites(db, reading, a, q, resumable, isSealed);
    case Extend(reading, a, f, ttl) => RenewRewrites(db, reading, a, f, ttl);
    case Move(reading, a, f, from, to, artifact, ids) => TransitionMoves(db, reading, a, f, from, to, artifact, ids);
    case Clean(reading, insert, release, a, f, projection, verified) =>
      CleanupReleases(db, reading, insert, release, a, f, projection, verified);
  }

  lemma AcceptedAdmission(db: Db, op: Op)
    requires RowsAgree(db) && Accepts(db, op) && op.Admit? && op.admission.attemptId !in db.attempts
    ensures Makes(db, Apply(db, op), ChangeOf(db, op))
  {
    hide Makes, RowsAgree, ReconcileReservation, AssertFence, ListPendingStripeIntents, MayMutateFixtures,
         BeginStripeIntent, ReconcileStripeIntent, HandoffStripeIntentRecovery, ResumeRecheck, Renew, Transition,
         Cleanup, FixtureMutationWithReservation;
    PrepareEnters(db, op.reading, op.expected, op.admission, op.recovered, op.newReservationId);
    hide Prepare;
  }

  lemma ReconcileTouchesItsTables(db: Db, op: Op)
    requires op.Reconcile?
    ensures KeepsOwnershipRows(db, Apply(db, op)) && ChangeOf(db, op) == Leave
  {
    hide Accepts, ReconcileStripeIntent, HoldsLocks;
    ReconcileTouchesReceipts(db, op.reading, op.attemptId, op.fence, op.intentId, op.observation, op.verified);
    if ReconcileStripeIntent(db, op.reading, op.attemptId, op.fence, op.intentId, op.observation,
                             op.verified).reply.Granted? {
      GrantedReceiptIsItsOwners(db, op.reading, op.attemptId, op.fence, op.intentId, op.observation, op.verified);
    }
  }

  // Intents, receipts, settlements and fixture charges leave every ownership row as it is.
  lemma LedgerOperationTouchesItsTables(db: Db, op: Op)
    requires op.Reconcile? || op.Settle? || op.Charge? || (op.Admit? && op.admission.attemptId in db.attempts)
    ensures KeepsOwnershipRows(db, Apply(db, op)) && ChangeOf(db, op) == Leave
  {
    hide Accepts, Prepare, ReconcileReservation, AssertFence, ListPendingStripeIntents, MayMutateFixtures,
         BeginStripeIntent, ReconcileStripeIntent, HandoffStripeIntentRecovery, ResumeRecheck, Renew, Transition,
         Cleanup, FixtureMutationWithReservation;
    match op
    case Reconcile(_, _, _, _, _, _) => ReconcileTouchesItsTables(db, op);
    case Settle(reading, id, outcome, retained, verified) =>
      SettlementTouchesItsTable(db, reading, id, outcome, retained, verified);
    case Charge(reading, insert, q, _) => ChargeTouchesFixtures(db, reading, insert, q);
    case Admit(reading, expected, q, recovered, id) => ReplayTouchesClock(db, reading, expected, q, recovered, id);
  }

  lemma AcceptedBegin(db: Db, op: Op)
    requires op.Begin? && Accepts(db, op)
    ensures Makes(db, Apply(db, op), ChangeOf(db, op))
  {
    hide Makes, BegunByOwner, BeginStripeIntent;
    BeginTouchesIntents(db, op.reading, op.intent, op.newIntentId);
    BegunIntentIsItsOwners(db, op.reading, op.intent, op.newIntentId);
    if Apply(db, op) == db {
      OtherWritesLeave(db, db);
    } else {
      AddingAnIntentLeaves(db, Apply(db, op), op.newIntentId,
                           BeginStripeIntent(db, op.reading, op.intent, op.newIntentId).reply.value);
    }
  }

  lemma AcceptedLedgerOperation(db: Db, op: Op)
    requires op.Reconcile? || op.Settle? || op.Charge? || (op.Admit? && op.admission.attemptId in db.attempts)
    ensures Makes(db, Apply(db, op), ChangeOf(db, op))
  {
    hide *;
    LedgerOperationTouchesItsTables(db, op);
    OtherWritesLeave(db, Apply(db, op));
  }

  lemma DeniedOperation(db: Db, op: Op)
    requires !Accepts(db, op)
    ensures Makes(db, Apply(db, op), ChangeOf(db, op))
  {
    hide Makes, Accepts, Apply;
    DeniedLeavesEverything(db, op);
    OtherWritesLeave(db, db);
  }

  lemma ReadsTouchSequence(db: Db, op: Op)
    requires op.Check? || op.ListPending? || op.Mutate? || op.SkipFence?
    ensures Apply(db, op) == db || (op.SkipFence? && Apply(db, op) == db.(sequence := db.sequence + 1))
    ensures ChangeOf(db, op) == Leave
  {
    hide Prepare, ReconcileReservation, AssertFence, ListPendingStripeIntents, MayMutateFixtures, BeginStripeIntent,
         ReconcileStripeIntent, HandoffStripeIntentRecovery, ResumeRecheck, Renew, Transition, Cleanup,
         FixtureMutationWithReservation;
  }

  lemma NothingWritten(db: Db)
    ensures Makes(db, db, Leave) && Makes(db, db.(sequence := db.sequence + 1), Leave)
  {
    hide Makes;
    OtherWritesLeave(db, db);
    OtherWritesLeave(db, db.(sequence := db.sequence + 1));
  }

  lemma ReadOperation(db: Db, op: Op)
    requires op.Check? || op.ListPending? || op.Mutate? || op.SkipFence?
    ensures Makes(db, Apply(db, op), ChangeOf(db, op))
  {
    hide *;
    ReadsTouchSequence(db, op);
    NothingWritten(db);
  }

  lemma EveryOperationMakesItsChange(db: Db, op: Op)
    requires RowsAgree(db)
    ensures Makes(db, Apply(db, op), ChangeOf(db, op))
  {
    hide *;
    if !Accepts(db, op) {
      DeniedOperation(db, op);
    } else {
      match op
      case Admit(_, _, q, _, _) =>
        if q.attemptId in db.attempts { AcceptedLedgerOperation(db, op); } else { AcceptedAdmission(db, op); }
      case HandOff(_, _, _, _, _) => AcceptedOwnershipOperation(db, op);
      case Recheck(_, _, _, _, _) => AcceptedOwnershipOperation(db, op);
      case Extend(_, _, _, _) => AcceptedOwnershipOperation(db, op);
      case Move(_, _, _, _, _, _, _) => AcceptedOwnershipOperation(db, op);
      case Clean(_, _, _, _, _, _, _) => AcceptedOwnershipOperation(db, op);
      case Begin(_, _, _) => AcceptedBegin(db, op);
      case Reconcile(_, _, _, _, _, _) => AcceptedLedgerOperation(db, op);
      case Settle(_, _, _, _, _) => AcceptedLedgerOperation(db, op);
      case Charge(_, _, _, _) => AcceptedLedgerOperation(db, op);
      case _ => ReadOperation(db, op);
    }
  }

  lemma OwnershipOperationIsNoLeave(db: Db, op: Op)
    requires Accepts(db, op)
    requires op.HandOff? || op.Recheck? || op.Extend? || op.Move? || op.Clean? ||
             (op.Admit? && op.admission.attemptId !in db.attempts)
    ensures ChangeOf(db, op) != Leave && (ChangeOf(db, op).Enter? <==> op.Admit?)
  {
    hide Accepts, Prepare, ReconcileReservation, AssertFence, ListPendingStripeIntents, MayMutateFixtures,
         BeginStripeIntent, ReconcileStripeIntent, HandoffStripeIntentRecovery, ResumeRecheck, Renew, Transition,
         Cleanup, FixtureMutationWithReservation;
  }

  // Only an admission changes which attempts there are, and none changes an attempt's environment.
  lemma ChangeKeepsAttempts(db: Db, after: Db, change: Change)
    requires Makes(db, after, change) && !change.Enter?
    ensures after.attempts.Keys == db.attempts.Keys
    ensures forall a :: a in db.attempts ==> after.attempts[a].environment == db.attempts[a].environment
    ensures change != Leave ==> SameLedgers(db, after)
  {
    hide Owns, HoldsLocks, LeavesOwnership;
    match change
    case Leave => assert after.attempts == db.attempts by { LeaveKeepsAttempts(db, after); }
    case MoveRow(a, row) => assert after.attempts.Keys == db.attempts.Keys + {a};
    case Rewrite(a, row, _, _) =>
      assert after.attempts.Keys == db.attempts.Keys + {a};
      assert a in db.attempts by { RewriterIsKnown(db, after, a, row, change.lease); }
    case Release(a, row) =>
      assert after.attempts.Keys == db.attempts.Keys + {a};
      assert a in db.attempts by { ReleaserIsKnown(db, after, a, row); }
  }

  lemma LeaveKeepsAttempts(db: Db, after: Db)
    requires LeavesOwnership(db, after)
    ensures after.attempts == db.attempts
  {
  }

  lemma RewriterIsKnown(db: Db, after: Db, a: Text, row: Attempt, lease: Lease)
    requires RewritesOwnership(db, after, a, row, lease)
    ensures a in db.attempts
  {
  }

  lemma ReleaserIsKnown(db: Db, after: Db, a: Text, row: Attempt)
    requires ReleasesOwnership(db, after, a, row)
    ensures a in db.attempts
  {
  }

  lemma EveryChangeKeepsOwnership(db: Db, after: Db, change: Change)
    requires OwnershipInv(db) && Makes(db, after, change)
    ensures OwnershipInv(after)
  {
    match change
    case Leave => LeavingKeepsOwnership(db, after);
    case MoveRow(a, row) => MovingKeepsOwnership(db, after, a, row);
    case Rewrite(a, row, lease, _) => RewritingKeepsOwnership(db, after, a, row, lease);
    case Enter(now, q) => AdmittingKeepsOwnership(db, after, now, q, after.sequence);
    case Release(a, row) => ReleasingKeepsOwnership(db, after, a, row);
  }

  lemma EveryOperationKeepsOwnership(db: Db, op: Op)
    requires OwnershipInv(db)
    ensures OwnershipInv(Apply(db, op))
  {
    hide Makes, OwnershipAgrees, Apply, ChangeOf;
    EveryOperationMakesItsChange(db, op);
    EveryChangeKeepsOwnership(db, Apply(db, op), ChangeOf(db, op));
  }
}
