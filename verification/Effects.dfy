// What a granted request of the control store is worth afterwards, over whatever is done next.
module Effects {
  import opened Options
  import opened Records
  import opened Control
  import opened Runs
  import opened Ownership
  import opened Changes
  import opened Lifecycle
  import opened RetentionLedger
  import opened FixtureLedger
  import opened Safety
  import opened Mirrors
  import opened Grants

  // ---------- One operation ----------

  // What `Apply` and `Accepts` are for an operation, without those for the others.
  lemma OperationIs(db: Db, op: Op)
    ensures match op
            case Settle(reading, id, outcome, retained, verified) =>
              var out := ReconcileReservation(db, reading, id, outcome, retained, verified);
              Apply(db, op) == out.db && (Accepts(db, op) <==> out.reply.Granted?)
            case Begin(reading, q, id) =>
              var out := BeginStripeIntent(db, reading, q, id);
              Apply(db, op) == out.db && (Accepts(db, op) <==> out.reply.Granted?)
            case Extend(reading, a, fence, ttl) =>
              var out := Renew(db, reading, a, fence, ttl);
              Apply(db, op) == out.db && (Accepts(db, op) <==> out.reply.Granted?)
            case HandOff(reading, a, fence, ttl, verdict) =>
              var out := HandoffStripeIntentRecovery(db, reading, a, fence, ttl, verdict);
              Apply(db, op) == out.db && (Accepts(db, op) <==> out.reply.Granted?)
            case Recheck(reading, a, q, resumable, isSealed) =>
              var out := ResumeRecheck(db, reading, a, q, resumable, isSealed);
              Apply(db, op) == out.db && (Accepts(db, op) <==> out.reply.Granted?)
            case Admit(reading, expected, q, recovered, id) =>
              var out := Prepare(db, reading, expected, q, recovered, id);
              Apply(db, op) == out.db && (Accepts(db, op) <==> out.reply.Granted?)
            case Reconcile(reading, a, fence, id, o, verified) =>
              var out := ReconcileStripeIntent(db, reading, a, fence, id, o, verified);
              Apply(db, op) == out.db && (Accepts(db, op) <==> out.reply.Granted?)
            case Move(reading, a, fence, from, to, artifact, ids) =>
              var out := Transition(db, reading, a, fence, from, to, artifact, ids);
              Apply(db, op) == out.db && (Accepts(db, op) <==> out.reply.Granted?)
            case Clean(reading, insert, release, a, fence, projection, verified) =>
              var out := Cleanup(db, reading, insert, release, a, fence, projection, verified);
              Apply(db, op) == out.db && (Accepts(db, op) <==> out.reply.Granted?)
            case Check(reading, a, fence) => Accepts(db, op) <==> AssertFence(db, reading, a, fence).Granted?
            case ListPending(reading, a, fence) =>
              Accepts(db, op) <==> ListPendingStripeIntents(db, reading, a, fence).Granted?
            case _ => true
  {
    hide ReconcileReservation, BeginStripeIntent, Renew, HandoffStripeIntentRecovery, ResumeRecheck, Prepare,
         ReconcileStripeIntent, Transition, Cleanup, AssertFence, ListPendingStripeIntents;
  }

  // ---------- How long a lease lasts ----------

  predicate GivesLease(db: Db, op: Op, a: Text) {
    match op
    case Admit(_, _, q, _, _) => q.attemptId == a && a !in db.attempts
    case HandOff(_, b, _, _, _) => b == a
    case Recheck(_, b, _, _, _) => b == a
    case Extend(_, b, _, _) => b == a
    case _ => false
  }

  function TtlGiven(op: Op): int {
    match op
    case Admit(_, _, q, _, _) => q.ttl
    case HandOff(_, _, _, ttl, _) => ttl
    case Recheck(_, _, q, _, _) => q.ttl
    case Extend(_, _, _, ttl) => ttl
    case _ => 0
  }

  // A renewal keeps the fence; whatever else gives a lease gives it under the next one of the sequence.
  function FenceGiven(db: Db, op: Op): nat {
    if op.Extend? then op.fence else db.sequence + 1
  }

  // The run that holds the lease given; a renewal leaves it to the run that has it.
  function RunGiven(db: Db, op: Op, a: Text): Option<Run> {
    match op
    case Admit(_, _, q, _, _) => Some(q.workflow.run)
    case HandOff(_, _, _, _, verdict) => if verdict.currentRun.Some? then Some(verdict.currentRun.value.run) else None
    case Recheck(_, _, q, _, _) => Some(q.recheckRun)
    case _ => if Leases(db, a) then Some(db.leases[db.attempts[a].key].run) else None
  }

  predicate LeaseIs(db: Db, a: Text, fence: nat, expiresAt: int, run: Option<Run>) {
    Leases(db, a) && db.leases[db.attempts[a].key].fence == fence &&
    db.leases[db.attempts[a].key].expiresAt == expiresAt && run == Some(db.leases[db.attempts[a].key].run)
  }

  lemma LeaseIsGiven(db: Db, op: Op, a: Text)
    requires Consistent(db) && GivesLease(db, op, a) && Accepts(db, op)
    ensures LeaseIs(Apply(db, op), a, FenceGiven(db, op), Now(db.clock, op.reading) + TtlGiven(op),
                    RunGiven(db, op, a))
    ensures Apply(db, op).clock == Now(db.clock, op.reading)
  {
    hide Sound, LocksMirror, Apply, Accepts, LeaseIs, Prepare, Renew, HandoffStripeIntentRecovery, ResumeRecheck;
    OperationIs(db, op);
    match op
    case Admit(reading, expected, q, recovered, id) => AdmissionGivesLease(db, reading, expected, q, recovered, id);
    case HandOff(reading, _, fence, ttl, verdict) => HandoffGivesLease(db, reading, a, fence, ttl, verdict);
    case Recheck(reading, _, q, resumable, isSealed) => RecheckGivesLease(db, reading, a, q, resumable, isSealed);
    case Extend(reading, _, fence, ttl) => RenewalGivesLease(db, reading, a, fence, ttl);
    case _ =>
  }

  lemma AdmissionGivesLease(db: Db, reading: int, expected: Option<Environment>, q: AdmissionRequest,
                            recovered: set<Text>, id: Text)
    requires q.attemptId !in db.attempts && Prepare(db, reading, expected, q, recovered, id).reply.Granted?
    ensures var after := Prepare(db, reading, expected, q, recovered, id).db;
            LeaseIs(after, q.attemptId, db.sequence + 1, Now(db.clock, reading) + q.ttl, Some(q.workflow.run)) &&
            after.clock == Now(db.clock, reading)
  {
    hide PriorOwners, AdmissionCapacity, ValidRetention, AdmissionRefusal;
  }

  lemma RenewalGivesLease(db: Db, reading: int, a: Text, fence: nat, ttl: int)
    requires Renew(db, reading, a, fence, ttl).reply.Granted?
    ensures var after := Renew(db, reading, a, fence, ttl).db;
            Leases(db, a) &&
            LeaseIs(after, a, fence, Now(db.clock, reading) + ttl, Some(db.leases[db.attempts[a].key].run)) &&
            after.clock == Now(db.clock, reading)
  {
    hide HoldsLocks, OwnerRefusal;
    CurrentOwnerOwns(db, a, fence, Now(db.clock, reading));
  }

  lemma HandoffGivesLease(db: Db, reading: int, a: Text, fence: nat, ttl: int, verdict: RecoveryVerdict)
    requires HandoffStripeIntentRecovery(db, reading, a, fence, ttl, verdict).reply.Granted?
    ensures var after := HandoffStripeIntentRecovery(db, reading, a, fence, ttl, verdict).db;
            verdict.currentRun.Some? &&
            LeaseIs(after, a, db.sequence + 1, Now(db.clock, reading) + ttl, Some(verdict.currentRun.value.run)) &&
            after.clock == Now(db.clock, reading)
  {
    hide HoldsLocks, PendingIntents, Settled, ReservationsOf;
  }

  lemma RecheckGivesLease(db: Db, reading: int, a: Text, q: RecheckRequest, resumable: bool, isSealed: bool)
    requires ResumeRecheck(db, reading, a, q, resumable, isSealed).reply.Granted?
    ensures var after := ResumeRecheck(db, reading, a, q, resumable, isSealed).db;
            LeaseIs(after, a, db.sequence + 1, Now(db.clock, reading) + q.ttl, Some(q.recheckRun)) &&
            after.clock == Now(db.clock, reading)
  {
    hide HoldsLocks, HasInFlight;
  }

  // Whatever gives an attempt its lease, the lease names the run it is given to, and the attempt passes the fence
  // check with the fence given, and with no other, exactly until the time asked for has passed on the server's clock.
  lemma LeaseLastsAsAsked(db: Db, op: Op, a: Text, later: int, fence: nat)
    requires Reachable(db) && GivesLease(db, op, a) && Accepts(db, op)
    ensures Accepts(Apply(db, op), Check(later, a, fence)) <==>
            fence == FenceGiven(db, op) && later < Now(db.clock, op.reading) + TtlGiven(op)
    ensures 1 <= TtlGiven(op) <= 3600
    ensures var after := Apply(db, op);
            Leases(after, a) && RunGiven(db, op, a) == Some(after.leases[after.attempts[a].key].run)
  {
    hide Reachable, Consistent, Accepts, Apply, Now, RunGiven;
    ReachableIsConsistent(db);
    LeaseIsGiven(db, op, a);
    ReachesOn(db, op);
    CheckIsGrantedExactlyWhen(Apply(db, op), later, a, fence);
    GivenTtlIsValid(db, op, a);
    LatestReading(db.clock, op.reading, later, TtlGiven(op));
  }

  lemma LatestReading(clock: int, reading: int, later: int, ttl: int)
    requires ttl >= 1
    ensures Now(Now(clock, reading), later) < Now(clock, reading) + ttl <==> later < Now(clock, reading) + ttl
  {
  }

  lemma GivenTtlIsValid(db: Db, op: Op, a: Text)
    requires Accepts(db, op) && GivesLease(db, op, a)
    ensures 1 <= TtlGiven(op) <= 3600
  {
    hide HoldsLocks, PendingIntents, Settled, ReservationsOf, WithOwnership, WithAttempt, HasInFlight, OwnerRefusal,
         AdmissionRefusal, AfterAdmission, AdmissionCapacity, ValidRetention, Apply, Accepts;
    OperationIs(db, op);
  }

  // ---------- What the caller is told ----------

  predicate TellsStanding(standing: Standing, db: Db, a: Text, now: int) {
    a in db.attempts && db.attempts[a].key in db.leases && standing.row == db.attempts[a] &&
    standing.expiresAt == db.leases[db.attempts[a].key].expiresAt && standing.serverNow == now
  }

  lemma RenewalTells(db: Db, reading: int, a: Text, fence: nat, ttl: int)
    requires Renew(db, reading, a, fence, ttl).reply.Granted?
    ensures var out := Renew(db, reading, a, fence, ttl);
            TellsStanding(out.reply.value, out.db, a, out.db.clock)
  {
    hide HoldsLocks, OwnerRefusal;
    CurrentOwnerOwns(db, a, fence, Now(db.clock, reading));
  }

  lemma HandoffTells(db: Db, reading: int, a: Text, fence: nat, ttl: int, verdict: RecoveryVerdict)
    requires HandoffStripeIntentRecovery(db, reading, a, fence, ttl, verdict).reply.Granted?
    ensures var out := HandoffStripeIntentRecovery(db, reading, a, fence, ttl, verdict);
            TellsStanding(out.reply.value, out.db, a, out.db.clock)
  {
    hide HoldsLocks, PendingIntents, Settled, ReservationsOf;
  }

  lemma RecheckTells(db: Db, reading: int, a: Text, q: RecheckRequest, resumable: bool, isSealed: bool)
    requires ResumeRecheck(db, reading, a, q, resumable, isSealed).reply.Granted?
    ensures var out := ResumeRecheck(db, reading, a, q, resumable, isSealed);
            TellsStanding(out.reply.value, out.db, a, out.db.clock)
  {
    hide HoldsLocks, HasInFlight;
  }

  // Whoever checks, renews or takes over a lease is told the attempt's row, the expiry of its lease and the server's
  // time as the store then has them.
  lemma StandingIsTold(db: Db, op: Op)
    requires Accepts(db, op)
    ensures match op
            case Check(reading, a, fence) =>
              TellsStanding(AssertFence(db, reading, a, fence).value, db, a, Now(db.clock, reading))
            case Extend(reading, a, fence, ttl) =>
              TellsStanding(Renew(db, reading, a, fence, ttl).reply.value, Apply(db, op), a, Apply(db, op).clock)
            case HandOff(reading, a, fence, ttl, verdict) =>
              TellsStanding(HandoffStripeIntentRecovery(db, reading, a, fence, ttl, verdict).reply.value,
                            Apply(db, op), a, Apply(db, op).clock)
            case Recheck(reading, a, q, resumable, isSealed) =>
              TellsStanding(ResumeRecheck(db, reading, a, q, resumable, isSealed).reply.value, Apply(db, op), a,
                            Apply(db, op).clock)
            case _ => true
  {
    hide Apply, Accepts, Renew, HandoffStripeIntentRecovery, ResumeRecheck, TellsStanding, AssertFence;
    OperationIs(db, op);
    match op
    case Check(reading, a, fence) => CheckTells(db, reading, a, fence);
    case Extend(reading, a, fence, ttl) => RenewalTells(db, reading, a, fence, ttl);
    case HandOff(reading, a, fence, ttl, verdict) => HandoffTells(db, reading, a, fence, ttl, verdict);
    case Recheck(reading, a, q, resumable, isSealed) => RecheckTells(db, reading, a, q, resumable, isSealed);
    case _ =>
  }

  lemma CheckTells(db: Db, reading: int, a: Text, fence: nat)
    requires AssertFence(db, reading, a, fence).Granted?
    ensures TellsStanding(AssertFence(db, reading, a, fence).value, db, a, Now(db.clock, reading))
  {
    hide HoldsLocks, OwnerRefusal;
    CurrentOwnerOwns(db, a, fence, Now(db.clock, reading));
  }

  predicate TellsAdmission(told: Admitted, db: Db, a: Text) {
    Leases(db, a) && told.row == db.attempts[a] && told.fence == db.leases[told.row.key].fence &&
    told.reservationId in db.reservations && db.reservations[told.reservationId].attemptId == a &&
    told.capacity == db.reservations[told.reservationId].capacity
  }

  lemma ReplayTells(db: Db, now: int, q: AdmissionRequest)
    requires q.attemptId in db.attempts && ReplayReply(db, now, q).Granted?
    ensures TellsAdmission(ReplayReply(db, now, q).value, db, q.attemptId)
  {
    hide HoldsLocks;
  }

  lemma EntryTells(db: Db, now: int, q: AdmissionRequest, id: Text)
    ensures TellsAdmission(Admitted(FreshRow(q, now), db.sequence + 1, id, AdmissionCapacity(db, q)),
                           AfterAdmission(db, now, q, id), q.attemptId)
  {
    hide AdmissionCapacity, PriorOwners;
  }

  // A capacity adds up: what is projected is all that the scope is charged with and the request, and what remains is
  // the rest of the quotas.
  ghost predicate AddsUp(c: Capacity, db: Db, q: AdmissionRequest) {
    var scope := ScopeOf(q.environment);
    c.quotas == q.quotas && c.requested == q.projection && c.committed == Total(Retained(db.settlements, scope)) &&
    c.reserved == Total(Outstanding(db.reservations, db.settlements, scope)) &&
    c.projected == Charged(db, scope).Plus(q.projection) && c.projected.Plus(c.remaining) == q.quotas
  }

  lemma CapacityAddsUp(db: Db, q: AdmissionRequest)
    ensures AddsUp(AdmissionCapacity(db, q), db, q)
  {
    hide Total, Retained, Outstanding;
  }

  // Whoever is admitted, for the first time or again, is told the row, the fence, the reservation and its capacity as
  // the store then has them; the capacity of a first admission adds up.
  lemma AdmissionIsTold(db: Db, reading: int, expected: Option<Environment>, q: AdmissionRequest, recovered: set<Text>,
                        id: Text)
    requires Prepare(db, reading, expected, q, recovered, id).reply.Granted?
    ensures var out := Prepare(db, reading, expected, q, recovered, id);
            TellsAdmission(out.reply.value, out.db, q.attemptId) &&
            (q.attemptId !in db.attempts ==> AddsUp(out.reply.value.capacity, db, q))
  {
    hide AdmissionRefusal, AdmissionCapacity, ValidRetention, AfterAdmission, ReplayReply, FreshRow, AddsUp;
    CapacityAddsUp(db, q);
    var now := Now(db.clock, reading);
    if q.attemptId in db.attempts { ReplayTells(db, now, q); } else { EntryTells(db, now, q, id); }
  }

  lemma SettlementTells(db: Db, reading: int, id: Text, outcome: RunOutcome, retained: Usage, verified: bool)
    requires ReconcileReservation(db, reading, id, outcome, retained, verified).reply.Granted?
    ensures var out := ReconcileReservation(db, reading, id, outcome, retained, verified);
            id in out.db.settlements && out.reply.value == out.db.settlements[id]
  {
    hide SettlementAllowed, Usage.Safe, Usage.Within;
  }

  lemma IntentTells(db: Db, reading: int, q: IntentRequest, id: Text)
    requires BeginStripeIntent(db, reading, q, id).reply.Granted?
    ensures var out := BeginStripeIntent(db, reading, q, id);
            id in out.db.intents && out.reply.value == out.db.intents[id]
  {
    hide OwnerRefusal, OperationTaken, IdempotencyTaken;
  }

  lemma ReceiptTells(db: Db, reading: int, a: Text, fence: nat, id: Text, o: Observation, verified: bool)
    requires ReconcileStripeIntent(db, reading, a, fence, id, o, verified).reply.Granted?
    ensures var out := ReconcileStripeIntent(db, reading, a, fence, id, o, verified);
            id in out.db.receipts && out.reply.value == out.db.receipts[id]
  {
    hide OwnerRefusal, Observes;
  }

  lemma MoveTells(db: Db, reading: int, a: Text, fence: nat, from: Phase, to: Phase, artifact: Option<Artifact>,
                  ids: Option<seq<Text>>)
    requires Transition(db, reading, a, fence, from, to, artifact, ids).reply.Granted?
    ensures var out := Transition(db, reading, a, fence, from, to, artifact, ids);
            a in out.db.attempts && out.reply.value == out.db.attempts[a]
  {
    hide OwnerRefusal;
  }

  lemma CleanupTells(db: Db, reading: int, insert: int, release: int, a: Text, fence: nat, projection: Text,
                     verified: bool)
    requires Cleanup(db, reading, insert, release, a, fence, projection, verified).reply.Granted?
    ensures var out := Cleanup(db, reading, insert, release, a, fence, projection, verified);
            a in out.db.cleanups && out.reply.value == out.db.cleanups[a]
  {
    hide CleanupGuard, CleanupRule, AfterRelease, CleanupReceiptOf;
  }

  lemma ListTells(db: Db, reading: int, a: Text, fence: nat)
    requires ListPendingStripeIntents(db, reading, a, fence).Granted?
    ensures forall i :: i in ListPendingStripeIntents(db, reading, a, fence).value <==>
              i in db.intents && db.intents[i].attemptId == a && i !in db.receipts
  {
    hide AssertFence;
  }

  // Whoever has a row written is told that row; an owner is listed exactly its intents without a receipt.
  lemma WritesAreTold(db: Db, op: Op)
    requires Accepts(db, op)
    ensures var after := Apply(db, op);
            match op
            case Settle(reading, id, outcome, retained, verified) =>
              id in after.settlements &&
              ReconcileReservation(db, reading, id, outcome, retained, verified).reply == Granted(after.settlements[id])
            case Begin(reading, q, id) =>
              id in after.intents && BeginStripeIntent(db, reading, q, id).reply == Granted(after.intents[id])
            case Reconcile(reading, a, fence, id, o, verified) =>
              id in after.receipts &&
              ReconcileStripeIntent(db, reading, a, fence, id, o, verified).reply == Granted(after.receipts[id])
            case Move(reading, a, fence, from, to, artifact, ids) =>
              a in after.attempts &&
              Transition(db, reading, a, fence, from, to, artifact, ids).reply == Granted(after.attempts[a])
            case Clean(reading, insert, release, a, fence, projection, verified) =>
              a in after.cleanups &&
              Cleanup(db, reading, insert, release, a, fence, projection, verified).reply == Granted(after.cleanups[a])
            case ListPending(reading, a, fence) =>
              var reply := ListPendingStripeIntents(db, reading, a, fence);
              reply.Granted? && forall i :: i in reply.value <==>
                                  i in db.intents && db.intents[i].attemptId == a && i !in db.receipts
            case _ => true
  {
    hide Apply, Accepts, ReconcileReservation, BeginStripeIntent, ReconcileStripeIntent, Transition, Cleanup,
         ListPendingStripeIntents;
    OperationIs(db, op);
    match op
    case Settle(reading, id, outcome, retained, verified) =>
      SettlementTells(db, reading, id, outcome, retained, verified);
    case Begin(reading, q, id) => IntentTells(db, reading, q, id);
    case Reconcile(reading, a, fence, id, o, verified) => ReceiptTells(db, reading, a, fence, id, o, verified);
    case Move(reading, a, fence, from, to, artifact, ids) => MoveTells(db, reading, a, fence, from, to, artifact, ids);
    case Clean(reading, insert, release, a, fence, projection, verified) =>
      CleanupTells(db, reading, insert, release, a, fence, projection, verified);
    case ListPending(reading, a, fence) => ListTells(db, reading, a, fence);
    case _ =>
  }

  // ---------- Settlements ----------

  // Once settled, the same settlement is granted again, and no other, whatever the verifier says.
  lemma SettlingTwiceIsSettlingOnce(db: Db, op: Op, again: Op)
    requires Reachable(db) && op.Settle? && Accepts(db, op) && again.Settle? && again.reservationId == op.reservationId
    ensures Accepts(Apply(db, op), again) <==> again.outcome == op.outcome && again.retained == op.retained
    ensures Apply(Apply(db, op), again) == Apply(db, op)
  {
    hide Reachable, Accepts, Apply, Countable;
    ReachesOn(db, op);
    SettledAsAsked(db, op);
    SettlementIsGrantedExactlyWhen(db, op.reading, op.reservationId, op.outcome, op.retained, op.verified);
    SettlementIsGrantedExactlyWhen(Apply(db, op), again.reading, again.reservationId, again.outcome, again.retained,
                                   again.verified);
    RepeatedSettlementChangesNothing(Apply(db, op), again);
  }

  lemma SettledAsAsked(db: Db, op: Op)
    requires op.Settle? && Accepts(db, op)
    ensures var after := Apply(db, op);
            after.reservations == db.reservations && after.attempts == db.attempts && after.leases == db.leases &&
            op.reservationId in db.reservations && Leases(db, db.reservations[op.reservationId].attemptId) &&
            op.reservationId in after.settlements &&
            after.settlements[op.reservationId].outcome == op.outcome &&
            after.settlements[op.reservationId].retained == op.retained &&
            after.settlements[op.reservationId].ownerFence ==
            db.leases[db.attempts[db.reservations[op.reservationId].attemptId].key].fence
  {
    hide Apply, Accepts, ReconcileReservation, Leases;
    OperationIs(db, op);
    SettlementAsAsked(db, op.reading, op.reservationId, op.outcome, op.retained, op.verified);
  }

  lemma SettlementAsAsked(db: Db, reading: int, id: Text, outcome: RunOutcome, retained: Usage, verified: bool)
    requires ReconcileReservation(db, reading, id, outcome, retained, verified).reply.Granted?
    ensures var after := ReconcileReservation(db, reading, id, outcome, retained, verified).db;
            after.reservations == db.reservations && after.attempts == db.attempts && after.leases == db.leases &&
            id in db.reservations && Leases(db, db.reservations[id].attemptId) && id in after.settlements &&
            after.settlements[id].outcome == outcome && after.settlements[id].retained == retained &&
            after.settlements[id].ownerFence == db.leases[db.attempts[db.reservations[id].attemptId].key].fence &&
            (id !in db.settlements ==> after.settlements[id].createdAt == Now(db.clock, reading))
  {
    hide SettlementAllowed, Usage.Safe, Usage.Within, ScopeOf;
    var reply := SettlementReply(db, Now(db.clock, reading), id, outcome, retained, verified);
    assert id in db.settlements ==> reply.value == db.settlements[id];
  }

  lemma RepeatedSettlementChangesNothing(db: Db, op: Op)
    requires op.Settle? && op.reservationId in db.settlements
    ensures Apply(db, op) == db
  {
    hide SettlementReply;
  }

  // ---------- Stripe intents ----------

  ghost predicate KeepsIntents(db: Db, after: Db) {
    (forall i :: i in db.intents ==> i in after.intents && after.intents[i] == db.intents[i]) &&
    forall i :: i in db.receipts ==> i in after.receipts && after.receipts[i] == db.receipts[i]
  }

  lemma OperationKeepsIntents(db: Db, op: Op)
    requires RowsAgree(db)
    ensures KeepsIntents(db, Apply(db, op))
  {
    hide RowsAgree, Apply, BeginStripeIntent, ReconcileStripeIntent;
    OperationIs(db, op);
    match op
    case Begin(reading, q, id) => BeginKeepsIntents(db, reading, q, id);
    case Reconcile(reading, a, fence, id, o, verified) => ReconcileKeepsIntents(db, reading, a, fence, id, o, verified);
    case _ => StripeLedger.OthersLeaveStripeRows(db, op);
  }

  lemma BeginKeepsIntents(db: Db, reading: int, q: IntentRequest, id: Text)
    ensures KeepsIntents(db, BeginStripeIntent(db, reading, q, id).db)
  {
    hide BeginStripeIntent;
    BeginTouchesIntents(db, reading, q, id);
  }

  lemma ReconcileKeepsIntents(db: Db, reading: int, a: Text, fence: nat, id: Text, o: Observation, verified: bool)
    ensures KeepsIntents(db, ReconcileStripeIntent(db, reading, a, fence, id, o, verified).db)
  {
    hide ReconcileStripeIntent;
    ReconcileTouchesReceipts(db, reading, a, fence, id, o, verified);
    if ReconcileStripeIntent(db, reading, a, fence, id, o, verified).reply.Granted? {
      ReceiptAsAsked(db, reading, a, fence, id, o, verified);
    }
  }

  // Intents and receipts are never changed or lost.
  lemma {:induction false} RunKeepsIntents(db: Db, ops: seq<Op>)
    requires Sound(db)
    ensures KeepsIntents(db, AfterAll(db, ops))
    decreases |ops|
  {
    hide Sound, Apply, RowsAgree, OwnershipInv;
    if ops == [] {
    } else {
      SoundHasOwnership(db);
      OperationKeepsIntents(db, ops[0]);
      OperationKeepsSound(db, ops[0]);
      RunKeepsIntents(Apply(db, ops[0]), ops[1..]);
    }
  }

  // An intent once begun is settled, at any time later, exactly by a verified observation that repeats its request,
  // presented by the owner of then before the test clock is deleted.
  lemma BegunIntentTakesItsOwnObservation(db: Db, begin: Op, more: seq<Op>, reading: int, fence: nat, o: Observation,
                                          verified: bool)
    requires Reachable(db) && begin.Begin? && Accepts(db, begin)
    ensures var q, later := begin.intent, AfterAll(Apply(db, begin), more);
            begin.newIntentId in later.intents && later.intents[begin.newIntentId].action == q.action &&
            (Accepts(later, Reconcile(reading, q.attemptId, fence, begin.newIntentId, o, verified)) <==>
             Current(later, q.attemptId, fence, Now(later.clock, reading)) && begin.newIntentId !in later.receipts &&
             o.accountId == q.environment.accountId && o.operation == q.operation &&
             o.requestDigest == q.requestDigest && o.idempotencyKey == q.idempotencyKey &&
             (o.clockDeletesAfter.Some? ==> o.clockDeletesAfter.value > Now(later.clock, reading)) && verified)
  {
    hide Reachable, Sound, LocksMirror, Accepts, Apply, AfterAll, Current, Now;
    var after := Apply(db, begin);
    BegunAsAsked(db, begin);
    ReachesOn(db, begin);
    ReachableIsConsistent(after);
    RunKeepsIntents(after, more);
    StaysReachable(after, more);
    ReceiptIsGrantedExactlyWhen(AfterAll(after, more), reading, begin.intent.attemptId, fence, begin.newIntentId, o,
                                verified);
  }

  lemma BegunAsAsked(db: Db, begin: Op)
    requires begin.Begin? && Accepts(db, begin)
    ensures var q, after := begin.intent, Apply(db, begin);
            begin.newIntentId in after.intents &&
            var intent := after.intents[begin.newIntentId];
            intent.attemptId == q.attemptId && intent.environment == q.environment && intent.action == q.action &&
            intent.operation == q.operation && intent.requestDigest == q.requestDigest &&
            intent.idempotencyKey == q.idempotencyKey
  {
    hide BeginStripeIntent, Apply, Accepts;
    OperationIs(db, begin);
    IntentAsAsked(db, begin.reading, begin.intent, begin.newIntentId);
  }

  lemma IntentAsAsked(db: Db, reading: int, q: IntentRequest, id: Text)
    requires BeginStripeIntent(db, reading, q, id).reply.Granted?
    ensures var intents := BeginStripeIntent(db, reading, q, id).db.intents;
            id in intents && intents[id].attemptId == q.attemptId && intents[id].environment == q.environment &&
            intents[id].action == q.action && intents[id].operation == q.operation &&
            intents[id].requestDigest == q.requestDigest && intents[id].idempotencyKey == q.idempotencyKey &&
            intents[id].createdAt == Now(db.clock, reading)
  {
    hide OwnerRefusal, OperationTaken, IdempotencyTaken;
  }

  // The receipt keeps what was observed for ever, and from then on that intent, and no other, is off the list of those
  // still pending.
  lemma ReceiptSettlesItsIntentOnly(db: Db, op: Op, more: seq<Op>)
    requires Reachable(db) && op.Reconcile? && Accepts(db, op)
    ensures var later := AfterAll(Apply(db, op), more);
            op.intentId in later.receipts && later.receipts[op.intentId].resourceIds == op.observation.resourceIds &&
            later.receipts[op.intentId].attemptId == op.attemptId
    ensures PendingIntents(Apply(db, op), op.attemptId) == PendingIntents(db, op.attemptId) - {op.intentId}
    ensures op.intentId in PendingIntents(db, op.attemptId)
  {
    hide Reachable, LocksMirror, Sound, AfterAll, Apply, Accepts, PendingIntents, ReconcileStripeIntent;
    OperationIs(db, op);
    ReceiptAsAsked(db, op.reading, op.attemptId, op.fence, op.intentId, op.observation, op.verified);
    ReachesOn(db, op);
    ReachableIsConsistent(Apply(db, op));
    RunKeepsIntents(Apply(db, op), more);
  }

  lemma ReceiptAsAsked(db: Db, reading: int, a: Text, fence: nat, id: Text, o: Observation, verified: bool)
    requires ReconcileStripeIntent(db, reading, a, fence, id, o, verified).reply.Granted?
    ensures var after := ReconcileStripeIntent(db, reading, a, fence, id, o, verified).db;
            id in after.receipts && after.receipts[id].resourceIds == o.resourceIds &&
            after.receipts[id].attemptId == a && after.receipts[id].observedAt == Now(db.clock, reading) &&
            id in PendingIntents(db, a) && PendingIntents(after, a) == PendingIntents(db, a) - {id}
  {
    hide OwnerRefusal, Observes;
  }

  // ---------- Artifacts ----------

  // The attempt has left collecting, and while it is collected its row names this artifact.
  predicate CollectedWith(db: Db, a: Text, artifact: Artifact) {
    a in db.attempts && db.attempts[a].phase != Collecting &&
    (db.attempts[a].phase == Collected ==> db.attempts[a].artifact == Some(artifact))
  }

  lemma OperationKeepsArtifact(db: Db, op: Op, a: Text, artifact: Artifact)
    requires OwnershipInv(db) && CollectedWith(db, a, artifact)
    ensures CollectedWith(Apply(db, op), a, artifact)
  {
    hide RowsAgree, OwnershipAgrees, Apply, ChangeOf, Makes, CollectedWith;
    EveryOperationMakesItsChange(db, op);
    ChangeKeepsArtifact(db, Apply(db, op), ChangeOf(db, op), a, artifact);
  }

  lemma ChangeKeepsArtifact(db: Db, after: Db, change: Change, a: Text, artifact: Artifact)
    requires OwnershipInv(db) && CollectedWith(db, a, artifact) && Makes(db, after, change)
    ensures CollectedWith(after, a, artifact)
  {
    hide HoldsLocks, LeaseRowAgrees, LockRowAgrees, Vacant, PriorOwners, SameLedgers, UnexpiredRowsAreOwned;
    ChangeMovesRow(db, after, change, a);
  }

  lemma {:induction false} RunKeepsArtifact(db: Db, ops: seq<Op>, a: Text, artifact: Artifact)
    requires OwnershipInv(db) && CollectedWith(db, a, artifact)
    ensures CollectedWith(AfterAll(db, ops), a, artifact)
    decreases |ops|
  {
    hide OwnershipInv, CollectedWith, Apply;
    if ops == [] {
    } else {
      OperationKeepsArtifact(db, ops[0], a, artifact);
      EveryOperationKeepsOwnership(db, ops[0]);
      RunKeepsArtifact(Apply(db, ops[0]), ops[1..], a, artifact);
    }
  }

  // Only the artifact that was collected is rechecked: whatever happens in between, a recheck is granted for no other.
  lemma OnlyTheCollectedArtifactIsRechecked(db: Db, collect: Op, more: seq<Op>, recheck: Op)
    requires Reachable(db) && collect.Move? && collect.to == Collected && Accepts(db, collect)
    requires recheck.Recheck? && recheck.attemptId == collect.attemptId
    requires Accepts(AfterAll(Apply(db, collect), more), recheck)
    ensures collect.artifact.Some? && recheck.recheck.artifact == collect.artifact
  {
    hide Reachable, Sound, LocksMirror, Accepts, Apply, AfterAll, HoldsRows, Idle, Current;
    var after, a := Apply(db, collect), collect.attemptId;
    MoveIsGrantedExactlyWhen(db, collect.reading, a, collect.fence, collect.from, collect.to, collect.artifact,
                             collect.resourceIds);
    MovedAsAsked(db, collect);
    assert collect.from != Collected;
    ReachesOn(db, collect);
    ReachableIsConsistent(after);
    SoundHasOwnership(after);
    RunKeepsArtifact(after, more, a, collect.artifact.value);
    StaysReachable(after, more);
    RecheckIsGrantedExactlyWhen(AfterAll(after, more), recheck.reading, a, recheck.recheck, recheck.resumable,
                                recheck.snapshotSealed);
  }

  // A move records what it is given and keeps what it is not.
  lemma MovedAsAsked(db: Db, op: Op)
    requires op.Move? && Accepts(db, op)
    ensures op.attemptId in db.attempts && op.attemptId in Apply(db, op).attempts
    ensures var before, after := db.attempts[op.attemptId], Apply(db, op).attempts[op.attemptId];
            after.phase == op.to && (op.artifact.Some? ==> after.artifact == op.artifact) &&
            (op.artifact.None? ==> after.artifact == before.artifact) &&
            (op.resourceIds.Some? ==> after.resourceIds == op.resourceIds.value) &&
            (op.resourceIds.None? ==> after.resourceIds == before.resourceIds)
  {
    hide OwnerRefusal;
  }

  // ---------- Cleanup ----------

  // A cleanup leaves key and resources to anybody: a new attempt asking for the same is admitted without any recovery,
  // as long as there is room.
  lemma CleanupFreesTheRows(db: Db, clean: Op, reading: int, q: AdmissionRequest, id: Text)
    requires Reachable(db) && clean.Clean? && Accepts(db, clean)
    requires q.key == db.attempts[clean.attemptId].key && q.environment == db.attempts[clean.attemptId].environment
    requires q.attemptId !in db.attempts
    ensures var after := Apply(db, clean);
            clean.attemptId in after.cleanups && after.cleanups[clean.attemptId].projection == clean.projection &&
            after.cleanups[clean.attemptId].fence == clean.fence &&
            (Accepts(after, Admit(reading, None, q, {}, id)) <==>
             RequestValid(q, None) && RoomFor(after, q) && after.sequence < MAX_FENCE_SEQUENCE &&
             id !in after.reservations)
  {
    hide Reachable, Accepts, Apply, RoomFor, RequestValid, Replaceable;
    ReachesOn(db, clean);
    CleanedAsAsked(db, clean);
    AdmissionIsGrantedExactlyWhen(Apply(db, clean), reading, None, q, {}, id);
  }

  lemma CleanedAsAsked(db: Db, clean: Op)
    requires clean.Clean? && Accepts(db, clean)
    ensures clean.attemptId in db.attempts
    ensures var row, after := db.attempts[clean.attemptId], Apply(db, clean);
            row.key !in after.leases && StripeAccount(row.environment.accountId) !in after.locks &&
            SupabaseProject(row.environment.projectRef) !in after.locks && after.attempts.Keys == db.attempts.Keys &&
            clean.attemptId in after.cleanups && after.cleanups[clean.attemptId].projection == clean.projection &&
            after.cleanups[clean.attemptId].fence == clean.fence
  {
    hide OwnerRefusal, HasInFlight, CleanupRule, ReservationsOf;
    CurrentOwnerOwns(db, clean.attemptId, clean.fence, Now(db.clock, clean.reading));
  }

  // ---------- Metered writes ----------

  // A granted write is told how many rows were left: the projection less what the accepted writes before it charged.
  lemma ChargeTellsWhatWasLeft(ops: seq<Op>, reading: int, insert: int, q: FixtureRequest)
    requires FixtureMutationWithReservation(AfterAll(EMPTY, ops), reading, insert, q).reply.Granted?
    ensures var db := AfterAll(EMPTY, ops);
            q.reservationId in db.reservations &&
            FixtureMutationWithReservation(db, reading, insert, q).reply.value ==
            db.reservations[q.reservationId].projection.databaseRows - RowsCharged(EMPTY, ops, q.reservationId) &&
            q.rows <= FixtureMutationWithReservation(db, reading, insert, q).reply.value
  {
    hide AfterAll, RowsUsed, RowsCharged, ChainsContinue, FixtureGuard, ClaimRefusal, UsageEventAllowed;
    FixtureChargesAreExact(ops, q.reservationId);
    FixtureGuardCodes(AfterAll(EMPTY, ops), Now(AfterAll(EMPTY, ops).clock, reading), q);
  }

  // ---------- History and stamps ----------

  function KindLogged(db: Db, op: Op): LeaseEventKind {
    match op
    case Admit(_, _, q, _, _) => if q.key in db.leases then Takeover else Acquired
    case HandOff(_, _, _, _, _) => RecoveryHandoff
    case Recheck(_, _, _, _, _) => RecheckHandoff
    case _ => Renewed
  }

  predicate EventTells(e: LeaseEvent, kind: LeaseEventKind, key: Key, lease: Lease) {
    e.kind == kind && e.key == key && e.attemptId == lease.attemptId && e.fence == lease.fence &&
    e.expiresAt == lease.expiresAt && e.runId == lease.run.runId && e.runAttempt == lease.run.runAttempt
  }

  ghost predicate AddsEvent(db: Db, after: Db, kind: LeaseEventKind, key: Key, lease: Lease) {
    |after.history| == |db.history| + 1 && after.history[..|db.history|] == db.history &&
    EventTells(after.history[|db.history|], kind, key, lease)
  }

  lemma AppendedEvent(db: Db, after: Db, kind: LeaseEventKind, key: Key, lease: Lease)
    requires after.history == db.history + [EventOf(kind, key, lease)]
    ensures AddsEvent(db, after, kind, key, lease)
  {
  }

  // Whatever gives or takes a lease logs one event that tells what was done and the lease row as it then is, or last
  // was; nothing else is logged.
  lemma LeaseChangesAreLogged(db: Db, op: Op, a: Text)
    requires Reachable(db) && Accepts(db, op)
    ensures var after := Apply(db, op);
            if GivesLease(db, op, a) then
              Leases(after, a) &&
              AddsEvent(db, after, KindLogged(db, op), after.attempts[a].key, after.leases[after.attempts[a].key])
            else if op.Clean? then
              Leases(db, op.attemptId) &&
              var key := db.attempts[op.attemptId].key;
              AddsEvent(db, after, Released, key, db.leases[key]) && key !in after.leases
            else !GivesLease(db, op, AttemptOf(op)) ==> after.history == db.history
  {
    hide Reachable, Sound, LocksMirror, Accepts, Apply, AddsEvent, RowsAgree, OwnershipAgrees, ChangeOf, LeaseIs,
         RunGiven;
    ReachableIsConsistent(db);
    SoundHasOwnership(db);
    EveryOperationMakesItsChange(db, op);
    if GivesLease(db, op, a) {
      LeaseIsGiven(db, op, a);
      GivenIsLogged(db, op, a);
    } else if op.Clean? {
      ReleaseIsLogged(db, op);
    } else if !GivesLease(db, op, AttemptOf(op)) {
      NothingIsLogged(db, op);
    }
  }

  function AttemptOf(op: Op): Text {
    match op
    case Admit(_, _, q, _, _) => q.attemptId
    case Begin(_, q, _) => q.attemptId
    case Charge(_, _, q, _) => q.attemptId
    case Settle(_, id, _, _, _) => id
    case SkipFence => Text(0)
    case _ => op.attemptId
  }

  lemma GivenIsLogged(db: Db, op: Op, a: Text)
    requires GivesLease(db, op, a) && Accepts(db, op) && Makes(db, Apply(db, op), ChangeOf(db, op))
    ensures var after := Apply(db, op);
            Leases(after, a) &&
            AddsEvent(db, after, KindLogged(db, op), after.attempts[a].key, after.leases[after.attempts[a].key])
  {
    hide Apply, Accepts, AddsEvent, Owns, HoldsLocks, SameLedgers, Vacant, PriorOwners;
    var after, change := Apply(db, op), ChangeOf(db, op);
    match change
    case Rewrite(_, row, lease, kind) => AppendedEvent(db, after, kind, row.key, lease);
    case Enter(now, q) =>
      AppendedEvent(db, after, KindLogged(db, op), q.key, FreshLease(q, after.sequence, now));
    case _ =>
  }

  lemma ReleaseIsLogged(db: Db, op: Op)
    requires op.Clean? && Accepts(db, op) && Makes(db, Apply(db, op), ChangeOf(db, op))
    ensures Leases(db, op.attemptId)
    ensures var key := db.attempts[op.attemptId].key;
            AddsEvent(db, Apply(db, op), Released, key, db.leases[key]) && key !in Apply(db, op).leases
  {
    hide Apply, Accepts, AddsEvent, HoldsLocks, SameLedgers;
    var key := db.attempts[op.attemptId].key;
    AppendedEvent(db, Apply(db, op), Released, key, db.leases[key]);
  }

  lemma NothingIsLogged(db: Db, op: Op)
    requires Makes(db, Apply(db, op), ChangeOf(db, op)) && !op.Clean? && !GivesLease(db, op, AttemptOf(op))
    ensures Apply(db, op).history == db.history
  {
    hide Apply, Accepts, Makes, Transition;
    var change := ChangeOf(db, op);
    assert change.Leave? || change.MoveRow?;
    QuietChange(db, Apply(db, op), change);
  }

  lemma QuietChange(db: Db, after: Db, change: Change)
    requires Makes(db, after, change) && (change.Leave? || change.MoveRow?)
    ensures after.history == db.history
  {
    hide LeavesOwnership, MovesAttempt, SameLedgers, Owns;
  }

  // Every row of an attempt that an operation changes is stamped with the transaction's time.
  lemma ChangedRowsAreStamped(db: Db, op: Op, a: Text)
    requires Reachable(db) && a in db.attempts
    ensures a in Apply(db, op).attempts
    ensures Apply(db, op).attempts[a] != db.attempts[a] ==>
              Apply(db, op).attempts[a].updatedAt == Now(db.clock, op.reading)
  {
    hide Reachable, Sound, LocksMirror, Apply, ChangeOf, RowsAgree, OwnershipAgrees, Makes;
    ReachableIsConsistent(db);
    SoundHasOwnership(db);
    EveryOperationMakesItsChange(db, op);
    ChangeStamps(db, op, a);
  }

  lemma MoveIsStamped(db: Db, reading: int, a: Text, fence: nat, from: Phase, to: Phase, artifact: Option<Artifact>,
                      ids: Option<seq<Text>>)
    requires Transition(db, reading, a, fence, from, to, artifact, ids).reply.Granted?
    ensures Transition(db, reading, a, fence, from, to, artifact, ids).reply.value.updatedAt == Now(db.clock, reading)
  {
    hide OwnerRefusal;
  }

  lemma ChangeStamps(db: Db, op: Op, a: Text)
    requires a in db.attempts && Makes(db, Apply(db, op), ChangeOf(db, op))
    ensures a in Apply(db, op).attempts
    ensures Apply(db, op).attempts[a] != db.attempts[a] ==>
              Apply(db, op).attempts[a].updatedAt == Now(db.clock, op.reading)
  {
    hide Apply, Accepts, HoldsLocks, SameLedgers, Vacant, PriorOwners, OwnerRefusal, Transition;
    OperationIs(db, op);
    if op.Move? && Accepts(db, op) {
      MoveIsStamped(db, op.reading, op.attemptId, op.fence, op.from, op.to, op.artifact, op.resourceIds);
    }
  }

  lemma AdmissionIsStamped(db: Db, now: int, q: AdmissionRequest, id: Text)
    ensures var after := AfterAdmission(db, now, q, id);
            q.attemptId in after.attempts && after.attempts[q.attemptId].createdAt == now &&
            after.attempts[q.attemptId].updatedAt == now && id in after.reservations &&
            after.reservations[id].createdAt == now
  {
    hide AdmissionCapacity, PriorOwners;
  }

  lemma CleanupIsStamped(db: Db, reading: int, insert: int, release: int, a: Text, fence: nat, projection: Text,
                         verified: bool)
    requires Cleanup(db, reading, insert, release, a, fence, projection, verified).reply.Granted?
    ensures var after := Cleanup(db, reading, insert, release, a, fence, projection, verified).db;
            a in after.cleanups && after.cleanups[a].createdAt == Now(db.clock, reading)
  {
    hide CleanupGuard, CleanupRule, AfterRelease;
  }

  // And so is every row that an operation adds: with the first clock reading of its transaction.
  lemma NewRowsAreStamped(db: Db, op: Op)
    requires Accepts(db, op)
    ensures var after := Apply(db, op);
            match op
            case Admit(reading, _, q, _, id) =>
              q.attemptId !in db.attempts ==>
                q.attemptId in after.attempts && id in after.reservations &&
                after.attempts[q.attemptId].createdAt == after.attempts[q.attemptId].updatedAt ==
                after.reservations[id].createdAt == Now(db.clock, reading)
            case Begin(reading, q, id) => id in after.intents && after.intents[id].createdAt == Now(db.clock, reading)
            case Reconcile(reading, _, _, id, _, _) =>
              id in after.receipts && after.receipts[id].observedAt == Now(db.clock, reading)
            case Settle(reading, id, _, _, _) =>
              id !in db.settlements ==>
                id in after.settlements && after.settlements[id].createdAt == Now(db.clock, reading)
            case Clean(reading, _, _, a, _, _, _) =>
              a in after.cleanups && after.cleanups[a].createdAt == Now(db.clock, reading)
            case _ => true
  {
    hide Apply, Accepts, ReconcileReservation, BeginStripeIntent, ReconcileStripeIntent, Cleanup, AdmissionRefusal,
         AfterAdmission, AdmissionCapacity, ValidRetention;
    OperationIs(db, op);
    match op
    case Admit(reading, _, q, _, id) => AdmissionIsStamped(db, Now(db.clock, reading), q, id);
    case Begin(reading, q, id) => IntentAsAsked(db, reading, q, id);
    case Reconcile(reading, a, fence, id, o, verified) => ReceiptAsAsked(db, reading, a, fence, id, o, verified);
    case Settle(reading, id, outcome, retained, verified) =>
      SettlementAsAsked(db, reading, id, outcome, retained, verified);
    case Clean(reading, insert, release, a, fence, projection, verified) =>
      CleanupIsStamped(db, reading, insert, release, a, fence, projection, verified);
    case _ =>
  }
}
