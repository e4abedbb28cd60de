// Stripe intents and the receipts that settle them.
module StripeLedger {
  import opened Options
  import opened Records
  import opened Control
  import opened Runs
  import opened Ownership
  import opened Changes
  import opened Lifecycle

  predicate IntentNamesItsAttempt(attempts: map<Text, Attempt>, intent: Intent) {
    intent.attemptId in attempts &&
    var row := attempts[intent.attemptId];
    intent.candidateSha == row.candidateSha && intent.workflow == row.workflow &&
    intent.environment == row.environment &&
    intent.accountId == row.environment.accountId
  }

  predicate Settles(receipt: StripeReceipt, intent: Intent) {
    receipt.attemptId == intent.attemptId && receipt.accountId == intent.accountId &&
    receipt.operation == intent.operation &&
    receipt.requestDigest == intent.requestDigest && receipt.idempotencyKey == intent.idempotencyKey &&
    intent.fence <= receipt.fence
  }

  predicate SameOperation(left: Intent, right: Intent) {
    left.attemptId == right.attemptId && left.operation == right.operation
  }

  predicate SameIdempotency(left: Intent, right: Intent) {
    left.accountId == right.accountId && left.idempotencyKey == right.idempotencyKey
  }

  ghost predicate StripeInv(db: Db) {
    (forall i :: i in db.intents ==> IntentNamesItsAttempt(db.attempts, db.intents[i])) &&
    (forall i, j :: i in db.intents && j in db.intents && SameOperation(db.intents[i], db.intents[j]) ==> i == j) &&
    (forall i, j :: i in db.intents && j in db.intents && SameIdempotency(db.intents[i], db.intents[j]) ==> i == j) &&
    (forall i :: i in db.receipts ==> i in db.intents && Settles(db.receipts[i], db.intents[i]))
  }

  ghost predicate SameStripeRows(db: Db, after: Db) {
    after.intents == db.intents && after.receipts == db.receipts
  }

  lemma ChangeLeavesStripeRows(db: Db, after: Db, change: Change)
    requires Makes(db, after, change) && change != Leave
    ensures SameStripeRows(db, after)
  {
    hide Owns, HoldsLocks, LeavesOwnership, SameLedgers, Vacant, PriorOwners, Retired;
  }

  lemma NothingChangesStripeRows(db: Db)
    ensures SameStripeRows(db, db) && SameStripeRows(db, db.(sequence := db.sequence + 1))
  {
  }

  lemma LedgerOperationLeavesStripeRows(db: Db, op: Op)
    requires op.Settle? || op.Charge? || (op.Admit? && op.admission.attemptId in db.attempts)
    ensures SameStripeRows(db, Apply(db, op))
  {
    hide Prepare, ReconcileReservation, FixtureMutationWithReservation;
    match op
    case Admit(reading, expected, q, recovered, id) => ReplayTouchesClock(db, reading, expected, q, recovered, id);
    case Settle(reading, id, outcome, retained, verified) =>
      SettlementTouchesItsTable(db, reading, id, outcome, retained, verified);
    case Charge(reading, insert, q, _) => ChargeTouchesFixtures(db, reading, insert, q);
  }

  lemma OthersLeaveStripeRows(db: Db, op: Op)
    requires RowsAgree(db) && !op.Begin? && !op.Reconcile?
    ensures SameStripeRows(db, Apply(db, op))
  {
    hide *;
    if !Accepts(db, op) {
      DeniedLeavesEverything(db, op);
      NothingChangesStripeRows(db);
    } else if op.Settle? || op.Charge? || (op.Admit? && op.admission.attemptId in db.attempts) {
      LedgerOperationLeavesStripeRows(db, op);
    } else if op.Check? || op.ListPending? || op.Mutate? || op.SkipFence? {
      ReadsTouchSequence(db, op);
      NothingChangesStripeRows(db);
    } else {
      EveryOperationMakesItsChange(db, op);
      OwnershipOperationIsNoLeave(db, op);
      ChangeLeavesStripeRows(db, Apply(db, op), ChangeOf(db, op));
    }
  }

  lemma BeginKeepsStripeRows(db: Db, reading: int, q: IntentRequest, id: Text)
    requires StripeInv(db)
    ensures StripeInv(BeginStripeIntent(db, reading, q, id).db)
  {
    hide OwnerRefusal, Settles;
  }

  lemma GrantedReceiptSettles(db: Db, reading: int, a: Text, fence: nat, id: Text, o: Observation, verified: bool)
    requires LifecycleInv(db) && ReconcileStripeIntent(db, reading, a, fence, id, o, verified).reply.Granted?
    ensures id in db.intents && id !in db.receipts
    ensures Settles(ReconcileStripeIntent(db, reading, a, fence, id, o, verified).reply.value, db.intents[id])
  {
    hide HoldsLocks;
    assert IntentStanding(db, db.intents[id]);
  }

  lemma AddingAReceiptKeepsStripeRows(db: Db, after: Db, id: Text, receipt: StripeReceipt)
    requires StripeInv(db) && id in db.intents && Settles(receipt, db.intents[id])
    requires after == db.(clock := after.clock, receipts := db.receipts[id := receipt])
    ensures StripeInv(after)
  {
    hide IntentNamesItsAttempt, SameOperation, SameIdempotency, Settles;
  }

  lemma ReconcileKeepsStripeRows(db: Db, reading: int, a: Text, fence: nat, id: Text, o: Observation, verified: bool)
    requires StripeInv(db) && LifecycleInv(db)
    ensures StripeInv(ReconcileStripeIntent(db, reading, a, fence, id, o, verified).db)
  {
    hide OwnerRefusal, HoldsLocks, LifecycleInv;
    var out := ReconcileStripeIntent(db, reading, a, fence, id, o, verified);
    ReconcileTouchesReceipts(db, reading, a, fence, id, o, verified);
    if out.reply.Granted? {
      GrantedReceiptSettles(db, reading, a, fence, id, o, verified);
      hide ReconcileStripeIntent;
      AddingAReceiptKeepsStripeRows(db, out.db, id, out.reply.value);
    }
  }

  lemma SameRowsKeepStripeRows(db: Db, after: Db)
    requires StripeInv(db) && SameStripeRows(db, after)
    requires forall a :: a in db.attempts ==> a in after.attempts && RowMayBecome(db.attempts[a], after.attempts[a])
    ensures StripeInv(after)
  {
    forall i | i in after.intents ensures IntentNamesItsAttempt(after.attempts, after.intents[i]) {
      assert IntentNamesItsAttempt(db.attempts, db.intents[i]);
    }
  }

  lemma OperationKeepsStripeRows(db: Db, op: Op)
    requires OwnershipInv(db) && StripeInv(db) && LifecycleInv(db)
    ensures StripeInv(Apply(db, op))
  {
    hide LifecycleInv, OwnershipAgrees, LeaseRowAgrees, LockRowAgrees, BeginStripeIntent, ReconcileStripeIntent, Makes,
         ChangeOf;
    if op.Begin? {
      BeginKeepsStripeRows(db, op.reading, op.intent, op.newIntentId);
    } else if op.Reconcile? {
      ReconcileKeepsStripeRows(db, op.reading, op.attemptId, op.fence, op.intentId, op.observation, op.verified);
    } else {
      hide Apply;
      var after := Apply(db, op);
      OthersLeaveStripeRows(db, op);
      EveryOperationMakesItsChange(db, op);
      forall a | a in db.attempts ensures a in after.attempts && RowMayBecome(db.attempts[a], after.attempts[a]) {
        ChangeMovesRow(db, after, ChangeOf(db, op), a);
      }
      SameRowsKeepStripeRows(db, after);
    }
  }

  // The guard against settling an intent under the fence that began it, while rechecking, is never the one that
  // refuses.
  lemma RecheckingIntentIsOlder(db: Db, reading: int, a: Text, fence: nat, id: Text)
    requires LifecycleInv(db) && a in db.attempts && db.attempts[a].phase == Rechecking
    requires OwnerRefusal(db.leases, db.locks, db.attempts[a], a, fence, Now(db.clock, reading)).None?
    requires id in db.intents && db.intents[id].attemptId == a
    ensures db.intents[id].fence < fence
    ensures forall o, verified ::
              ReconcileStripeIntent(db, reading, a, fence, id, o, verified).reply != Denied(RecoveryReadOnly)
  {
    assert IntentStanding(db, db.intents[id]);
  }

  // ---------- Recovery closes the set of intents ----------

  // After a recovery handoff: whoever still acts for `a` does so in recovery only.
  predicate InRecovery(db: Db, a: Text) {
    a in db.attempts && db.attempts[a].phase != Collecting && db.attempts[a].phase != Collected &&
    (Leases(db, a) ==> db.leases[db.attempts[a].key].recoveryOnly)
  }

  ghost function IntentsOf(db: Db, a: Text): set<Text> {
    set i | i in db.intents && db.intents[i].attemptId == a
  }

  lemma HandoffEntersRecovery(db: Db, reading: int, a: Text, fence: nat, ttl: int, verdict: RecoveryVerdict)
    requires HandoffStripeIntentRecovery(db, reading, a, fence, ttl, verdict).reply.Granted?
    ensures InRecovery(HandoffStripeIntentRecovery(db, reading, a, fence, ttl, verdict).db, a)
  {
    hide HoldsLocks;
  }

  lemma ChangeKeepsRecovery(db: Db, after: Db, change: Change, a: Text)
    requires Makes(db, after, change) && InRecovery(db, a)
    ensures InRecovery(after, a)
    ensures change != Leave ==> after.intents == db.intents
    ensures IntentsOf(after, a) == IntentsOf(db, a)
  {
    hide HoldsLocks;
  }

  lemma {:induction false} RecoveryNeverBeginsAnotherIntent(db: Db, ops: seq<Op>, a: Text)
    requires OwnershipInv(db) && InRecovery(db, a)
    ensures InRecovery(AfterAll(db, ops), a) && IntentsOf(AfterAll(db, ops), a) == IntentsOf(db, a)
    decreases |ops|
  {
    hide InRecovery, Apply, ChangeOf, Makes, OwnershipAgrees, LeaseRowAgrees, LockRowAgrees;
    if ops == [] {
    } else {
      EveryOperationMakesItsChange(db, ops[0]);
      ChangeKeepsRecovery(db, Apply(db, ops[0]), ChangeOf(db, ops[0]), a);
      EveryOperationKeepsOwnership(db, ops[0]);
      RecoveryNeverBeginsAnotherIntent(Apply(db, ops[0]), ops[1..], a);
    }
  }
}
