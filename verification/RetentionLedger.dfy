// The quota ledger: reservations, the settlements that replace their projections, and what a scope has been charged.
module RetentionLedger {
  import opened Options
  import opened Records
  import opened Control
  import opened Runs
  import opened Ownership
  import opened Changes

  // ---------- Sums ----------

  lemma {:induction false} TotalWithout(entries: map<Text, Usage>, k: Text)
    requires k in entries
    ensures Total(entries) == entries[k].Plus(Total(entries - {k}))
    decreases |entries|
  {
    var pick :| pick in entries && Total(entries) == entries[pick].Plus(Total(entries - {pick}));
    assert Total(entries) == entries[pick].Plus(Total(entries - {pick}));
    if pick == k {
      assert entries - {pick} == entries - {k};
    } else {
      var rest := entries - {pick} - {k};
      assert rest == entries - {k} - {pick};
      TotalWithout(entries - {pick}, k);
      assert Total(entries - {pick}) == entries[k].Plus(Total(rest));
      TotalWithout(entries - {k}, pick);
      assert Total(entries - {k}) == entries[pick].Plus(Total(rest));
      assert Total(entries) == entries[pick].Plus(entries[k].Plus(Total(rest)));
      assert Total(entries) == entries[k].Plus(entries[pick].Plus(Total(rest)));
    }
  }

  lemma TotalWith(entries: map<Text, Usage>, k: Text, u: Usage)
    requires k !in entries
    ensures Total(entries[k := u]) == u.Plus(Total(entries))
  {
    TotalWithout(entries[k := u], k);
    assert entries[k := u] - {k} == entries;
  }

  // When every entry counts as one attempt, the attempts component counts the entries.
  lemma {:induction false} TotalCountsAttempts(entries: map<Text, Usage>)
    requires forall k :: k in entries ==> entries[k].attempts == 1
    ensures Total(entries).attempts == |entries|
    decreases |entries|
  {
    if entries == map[] {
    } else {
      var k :| k in entries;
      TotalWithout(entries, k);
      TotalCountsAttempts(entries - {k});
      assert |entries - {k}| == |entries| - 1 by { assert (entries - {k}).Keys == entries.Keys - {k}; }
    }
  }

  // What the reservations of a scope are charged for: settled usage plus the projections not yet settled.
  ghost function Charged(db: Db, scope: Scope): Usage {
    Total(Retained(db.settlements, scope)).Plus(Total(Outstanding(db.reservations, db.settlements, scope)))
  }

  function ScopeReservations(db: Db, scope: Scope): set<Text> {
    set r | r in db.reservations && db.reservations[r].scope == scope
  }

  // ---------- The ledger's invariant ----------

  predicate ReservationAgrees(db: Db, r: Text) requires r in db.reservations {
    var reservation := db.reservations[r];
    reservation.attemptId in db.attempts &&
    reservation.scope == ScopeOf(db.attempts[reservation.attemptId].environment) &&
    ValidRetention(reservation.quotas, reservation.projection)
  }

  predicate SettlementAgrees(db: Db, r: Text) requires r in db.settlements {
    r in db.reservations &&
    var settlement, reservation := db.settlements[r], db.reservations[r];
    settlement.attemptId == reservation.attemptId && settlement.scope == reservation.scope &&
    settlement.retained.Safe(0) && settlement.retained.attempts == 1 &&
    settlement.retained.Within(reservation.projection)
  }

  predicate OneReservationEach(db: Db) {
    (forall r, s ::
      r in db.reservations && s in db.reservations && db.reservations[r].attemptId == db.reservations[s].attemptId ==>
        r == s) &&
    (forall a :: a in db.attempts ==> ReservationsOf(db.reservations, a) != {})
  }

  // All reservations of a scope were made under one quota record.
  predicate OnePolicyEach(db: Db) {
    forall r, s ::
      r in db.reservations && s in db.reservations && db.reservations[r].scope == db.reservations[s].scope ==>
        db.reservations[r].quotas == db.reservations[s].quotas
  }

  ghost predicate WithinQuotas(db: Db) {
    forall r :: r in db.reservations ==> Charged(db, db.reservations[r].scope).Within(db.reservations[r].quotas)
  }

  ghost predicate RetentionInv(db: Db) {
    (forall r :: r in db.reservations ==> ReservationAgrees(db, r)) &&
    (forall r :: r in db.settlements ==> SettlementAgrees(db, r)) &&
    OneReservationEach(db) && OnePolicyEach(db) && WithinQuotas(db)
  }

  lemma ScopeSplits(db: Db, scope: Scope)
    requires forall r :: r in db.settlements ==> SettlementAgrees(db, r)
    ensures |ScopeReservations(db, scope)| ==
            |Retained(db.settlements, scope)| + |Outstanding(db.reservations, db.settlements, scope)|
  {
    var retained, outstanding := Retained(db.settlements, scope), Outstanding(db.reservations, db.settlements, scope);
    forall r ensures r in ScopeReservations(db, scope) <==> r in retained || r in outstanding {
      if r in db.settlements { assert SettlementAgrees(db, r); }
    }
    assert retained.Keys !! outstanding.Keys;
    hide Retained, Outstanding;
    assert ScopeReservations(db, scope) == retained.Keys + outstanding.Keys;
  }

  lemma ChargedCountsReservations(db: Db, scope: Scope)
    requires RetentionInv(db)
    ensures Charged(db, scope).attempts == |ScopeReservations(db, scope)|
  {
    hide Total, WithinQuotas, OnePolicyEach, OneReservationEach, Usage.Safe;
    var retained, outstanding := Retained(db.settlements, scope), Outstanding(db.reservations, db.settlements, scope);
    forall r | r in retained ensures r in ScopeReservations(db, scope) && retained[r].attempts == 1 {
      assert SettlementAgrees(db, r);
    }
    forall r | r in outstanding ensures r in ScopeReservations(db, scope) && outstanding[r].attempts == 1 {
      assert ReservationAgrees(db, r);
    }
    TotalCountsAttempts(retained);
    TotalCountsAttempts(outstanding);
    ScopeSplits(db, scope);
  }

  // ---------- Capacity ----------

  predicate KeyFits(k: QuotaKey, committed: Usage, reserved: Usage, requested: Usage, quotas: Usage) {
    committed.At(k) + reserved.At(k) + requested.At(k) <= quotas.At(k)
  }

  lemma {:induction false} NoKeyRefusedWhenAllFit(keys: seq<QuotaKey>, committed: Usage, reserved: Usage,
                                                  requested: Usage, quotas: Usage)
    requires committed.Safe(0) && reserved.Safe(0) && requested.Safe(0) && quotas.Safe(1)
    ensures FirstKeyRefusal(keys, committed, reserved, requested, quotas).None? <==>
            forall k :: k in keys ==> KeyFits(k, committed, reserved, requested, quotas)
  {
    if keys == [] {
    } else {
      NoKeyRefusedWhenAllFit(keys[1..], committed, reserved, requested, quotas);
      assert forall k :: k in keys <==> k == keys[0] || k in keys[1..];
      assert KeyFits(keys[0], committed, reserved, requested, quotas) <==>
        KeyRefusal(committed.At(keys[0]), reserved.At(keys[0]), requested.At(keys[0]), quotas.At(keys[0])).None?;
    }
  }

  // A capacity is granted exactly when the request fits beside everything charged, under the scope's one quota record.
  lemma CapacityIsExact(committed: Usage, reserved: Usage, policies: set<Usage>, quotas: Usage, requested: Usage)
    requires committed.Safe(0) && reserved.Safe(0) && ValidRetention(quotas, requested)
    ensures RetentionCapacity(committed, reserved, policies, quotas, requested).Granted? <==>
            policies <= {quotas} && committed.Plus(reserved).Plus(requested).Within(quotas)
    ensures var reply := RetentionCapacity(committed, reserved, policies, quotas, requested);
            reply.Granted? ==>
              reply.value.projected.Plus(reply.value.remaining) == quotas && reply.value.remaining.Safe(0)
  {
    NoKeyRefusedWhenAllFit(QuotaKeys(), committed, reserved, requested, quotas);
    assert QuotaKeys()[0] == Attempts && QuotaKeys()[1] == DatabaseRows && QuotaKeys()[2] == AuthUsers &&
           QuotaKeys()[3] == StripeObjects;
    assert (forall k :: k in QuotaKeys() ==> KeyFits(k, committed, reserved, requested, quotas)) <==>
           KeyFits(Attempts, committed, reserved, requested, quotas) &&
           KeyFits(DatabaseRows, committed, reserved, requested, quotas) &&
           KeyFits(AuthUsers, committed, reserved, requested, quotas) &&
           KeyFits(StripeObjects, committed, reserved, requested, quotas);
    hide FirstKeyRefusal;
    if policies <= {quotas} {
      assert forall p :: p in policies ==> p == quotas;
    }
  }

  // ---------- Admission ----------

  lemma OutstandingGains(reservations: map<Text, Reservation>, settlements: map<Text, Settlement>, id: Text,
                         reservation: Reservation, scope: Scope)
    requires id !in reservations && id !in settlements
    ensures id !in Outstanding(reservations, settlements, scope)
    ensures Outstanding(reservations[id := reservation], settlements, scope) ==
            if scope == reservation.scope then
              Outstanding(reservations, settlements, scope)[id := reservation.projection]
            else Outstanding(reservations, settlements, scope)
  {
  }

  lemma AdmissionCharges(db: Db, after: Db, id: Text, reservation: Reservation, scope: Scope)
    requires RetentionInv(db) && id !in db.reservations
    requires after.reservations == db.reservations[id := reservation] && after.settlements == db.settlements
    ensures Charged(after, scope) ==
            if scope == reservation.scope then Charged(db, scope).Plus(reservation.projection) else Charged(db, scope)
  {
    hide Total, WithinQuotas, OnePolicyEach, OneReservationEach;
    assert forall r :: r in db.settlements ==> SettlementAgrees(db, r);
    OutstandingGains(db.reservations, db.settlements, id, reservation, scope);
    if scope == reservation.scope {
      TotalWith(Outstanding(db.reservations, db.settlements, scope), id, reservation.projection);
    }
  }

  ghost predicate AddsReservation(db: Db, after: Db, id: Text, q: AdmissionRequest, capacity: Capacity, now: int) {
    id !in db.reservations && q.attemptId !in db.attempts && ReservationsOf(db.reservations, q.attemptId) == {} &&
    ValidRetention(q.quotas, q.projection) &&
    RetentionCapacity(Total(Retained(db.settlements, ScopeOf(q.environment))),
                      Total(Outstanding(db.reservations, db.settlements, ScopeOf(q.environment))),
                      Policies(db.reservations, ScopeOf(q.environment)), q.quotas, q.projection).Granted? &&
    after.settlements == db.settlements &&
    after.reservations ==
      db.reservations[id := Reservation(q.attemptId, ScopeOf(q.environment), q.quotas, q.projection, capacity, now)] &&
    q.attemptId in after.attempts && after.attempts[q.attemptId].environment == q.environment &&
    after.attempts.Keys == db.attempts.Keys + {q.attemptId} &&
    (forall a :: a in db.attempts ==> after.attempts[a].environment == db.attempts[a].environment)
  }

  lemma AdmissionStaysWithinQuotas(db: Db, after: Db, id: Text, q: AdmissionRequest, capacity: Capacity, now: int)
    requires RetentionInv(db) && AddsReservation(db, after, id, q, capacity, now)
    ensures OnePolicyEach(after) && WithinQuotas(after)
  {
    hide Total, Outstanding, Retained, ReservationAgrees, SettlementAgrees, OneReservationEach;
    var scope := ScopeOf(q.environment);
    GrantedTotalsAreSafe(db, scope, q.quotas, q.projection);
    CapacityIsExact(Total(Retained(db.settlements, scope)), Total(Outstanding(db.reservations, db.settlements, scope)),
                    Policies(db.reservations, scope), q.quotas, q.projection);
    hide RetentionCapacity;
    forall r | r in db.reservations && db.reservations[r].scope == scope ensures db.reservations[r].quotas == q.quotas {
      assert db.reservations[r].quotas in Policies(db.reservations, scope);
    }
    hide Policies, AddsReservation;
    forall r | r in after.reservations
      ensures Charged(after, after.reservations[r].scope).Within(after.reservations[r].quotas)
    {
      AdmissionCharges(db, after, id, after.reservations[id], after.reservations[r].scope);
    }
  }

  lemma GrantedTotalsAreSafe(db: Db, scope: Scope, quotas: Usage, requested: Usage)
    requires RetentionCapacity(Total(Retained(db.settlements, scope)),
                               Total(Outstanding(db.reservations, db.settlements, scope)),
                               Policies(db.reservations, scope), quotas, requested).Granted?
    ensures Total(Retained(db.settlements, scope)).Safe(0)
    ensures Total(Outstanding(db.reservations, db.settlements, scope)).Safe(0)
  {
    hide Total, Outstanding, Retained, FirstKeyRefusal;
  }

  lemma AdmissionKeepsOneReservationEach(db: Db, after: Db, id: Text, q: AdmissionRequest, capacity: Capacity, now: int)
    requires OneReservationEach(db) && AddsReservation(db, after, id, q, capacity, now)
    ensures OneReservationEach(after)
  {
    hide RetentionCapacity, Total, Outstanding, Retained, Policies;
    forall a | a in after.attempts ensures ReservationsOf(after.reservations, a) != {} {
      if a == q.attemptId { assert id in ReservationsOf(after.reservations, a); }
      else {
        var r :| r in ReservationsOf(db.reservations, a);
        assert r in ReservationsOf(after.reservations, a);
      }
    }
    forall r | r in db.reservations ensures db.reservations[r].attemptId != q.attemptId {
      assert r !in ReservationsOf(db.reservations, q.attemptId);
    }
  }

  lemma AdmissionKeepsRetention(db: Db, after: Db, id: Text, q: AdmissionRequest, capacity: Capacity, now: int)
    requires RetentionInv(db) && AddsReservation(db, after, id, q, capacity, now)
    ensures RetentionInv(after)
  {
    hide WithinQuotas, OnePolicyEach, OneReservationEach, RetentionCapacity, Total, Outstanding, Retained, Policies;
    AdmissionStaysWithinQuotas(db, after, id, q, capacity, now);
    AdmissionKeepsOneReservationEach(db, after, id, q, capacity, now);
    forall r | r in after.reservations ensures ReservationAgrees(after, r) {
      if r != id { assert ReservationAgrees(db, r); }
    }
    forall r | r in after.settlements ensures SettlementAgrees(after, r) {
      assert SettlementAgrees(db, r);
    }
  }

  // ---------- Settlement ----------

  lemma SettlementMovesOne(reservations: map<Text, Reservation>, settlements: map<Text, Settlement>, id: Text,
                           settlement: Settlement, scope: Scope)
    requires id in reservations && id !in settlements && settlement.scope == reservations[id].scope
    ensures var retained, outstanding := Retained(settlements, scope), Outstanding(reservations, settlements, scope);
            var retained', outstanding' :=
              Retained(settlements[id := settlement], scope),
              Outstanding(reservations, settlements[id := settlement], scope);
            if scope == settlement.scope then
              id !in retained && retained' == retained[id := settlement.retained] && id in outstanding &&
              outstanding[id] == reservations[id].projection && outstanding' == outstanding - {id}
            else retained' == retained && outstanding' == outstanding
  {
  }

  // Settling replaces a projection by what was retained, and so never raises the charge.
  lemma SettlementCharges(db: Db, after: Db, id: Text, settlement: Settlement, scope: Scope)
    requires id in db.reservations && id !in db.settlements && settlement.scope == db.reservations[id].scope
    requires settlement.retained.Within(db.reservations[id].projection)
    requires after.reservations == db.reservations && after.settlements == db.settlements[id := settlement]
    ensures Charged(after, scope).Within(Charged(db, scope))
    ensures scope == settlement.scope ==>
              Charged(after, scope).Plus(db.reservations[id].projection) == Charged(db, scope).Plus(settlement.retained)
    ensures scope != settlement.scope ==> Charged(after, scope) == Charged(db, scope)
  {
    hide Total;
    var retained, outstanding := Retained(db.settlements, scope), Outstanding(db.reservations, db.settlements, scope);
    SettlementMovesOne(db.reservations, db.settlements, id, settlement, scope);
    hide Retained, Outstanding;
    if scope == settlement.scope {
      TotalWith(retained, id, settlement.retained);
      TotalWithout(outstanding, id);
    }
  }

  lemma ChargeIsWithinItself(db: Db)
    ensures forall scope :: Charged(db, scope).Within(Charged(db, scope))
  {
  }

  lemma AddingSettlementKeepsRetention(db: Db, after: Db, id: Text, settlement: Settlement)
    requires RetentionInv(db) && id in db.reservations && id !in db.settlements
    requires after.attempts == db.attempts && after.reservations == db.reservations
    requires after.settlements == db.settlements[id := settlement] && SettlementAgrees(after, id)
    ensures RetentionInv(after)
    ensures forall scope :: Charged(after, scope).Within(Charged(db, scope))
  {
    hide Charged, Total, Outstanding, Retained, ReservationsOf;
    forall scope ensures Charged(after, scope).Within(Charged(db, scope)) {
      SettlementCharges(db, after, id, settlement, scope);
    }
    forall r | r in after.reservations ensures ReservationAgrees(after, r) {
      assert ReservationAgrees(db, r);
    }
    forall r | r in after.settlements ensures SettlementAgrees(after, r) {
      if r != id { assert SettlementAgrees(db, r); }
    }
  }

  lemma SettlementKeepsRetention(db: Db, reading: int, id: Text, outcome: RunOutcome, retained: Usage, verified: bool)
    requires RetentionInv(db)
    ensures RetentionInv(ReconcileReservation(db, reading, id, outcome, retained, verified).db)
    ensures var after := ReconcileReservation(db, reading, id, outcome, retained, verified).db;
            forall scope :: Charged(after, scope).Within(Charged(db, scope))
  {
    hide WithinQuotas, OnePolicyEach, OneReservationEach, Charged, Total, InHistory, SettlementAllowed;
    var after := ReconcileReservation(db, reading, id, outcome, retained, verified).db;
    if after != db {
      AddingSettlementKeepsRetention(db, after, id, after.settlements[id]);
    } else {
      ChargeIsWithinItself(db);
    }
  }

  // ---------- Every operation ----------

  lemma FreshAdmissionAddsReservation(db: Db, reading: int, expected: Option<Environment>, q: AdmissionRequest,
                                      recovered: set<Text>, id: Text)
    requires RowsAgree(db) && q.attemptId !in db.attempts
    requires Prepare(db, reading, expected, q, recovered, id).reply.Granted?
    ensures AddsReservation(db, Prepare(db, reading, expected, q, recovered, id).db, id, q, AdmissionCapacity(db, q),
                            Now(db.clock, reading))
  {
    hide PriorLockRefusal, PriorLeaseRefusal, MayReplace, LeaseRowAgrees, LockRowAgrees, Total, Retained, Outstanding,
         Policies, RetentionCapacity, AdmissionCapacity, PriorOwners;
  }

  lemma UnrelatedChangeKeepsRetention(db: Db, after: Db)
    requires RetentionInv(db)
    requires after.reservations == db.reservations && after.settlements == db.settlements
    requires after.attempts.Keys == db.attempts.Keys
    requires forall a :: a in db.attempts ==> after.attempts[a].environment == db.attempts[a].environment
    ensures RetentionInv(after)
  {
    hide Total, Retained, Outstanding;
    forall r | r in after.reservations ensures ReservationAgrees(after, r) {
      assert ReservationAgrees(db, r);
    }
    forall r | r in after.settlements ensures SettlementAgrees(after, r) {
      assert SettlementAgrees(db, r);
    }
  }

  lemma StripeOperationTouchesStripeRows(db: Db, op: Op)
    requires op.Begin? || op.Reconcile? || (op.Admit? && op.admission.attemptId in db.attempts)
    ensures var after := Apply(db, op);
            after == db.(clock := after.clock, intents := after.intents, receipts := after.receipts)
  {
    hide Prepare, ReconcileReservation, AssertFence, ListPendingStripeIntents, MayMutateFixtures, BeginStripeIntent,
         ReconcileStripeIntent, HandoffStripeIntentRecovery, ResumeRecheck, Renew, Transition, Cleanup,
         FixtureMutationWithReservation;
    match op
    case Begin(reading, q, id) => BeginTouchesIntents(db, reading, q, id);
    case Reconcile(reading, a, f, id, o, verified) => ReconcileTouchesReceipts(db, reading, a, f, id, o, verified);
    case Admit(reading, expected, q, recovered, id) => ReplayTouchesClock(db, reading, expected, q, recovered, id);
  }

  lemma LeavingOperationLeavesLedgers(db: Db, op: Op)
    requires op.Begin? || op.Reconcile? || (op.Admit? && op.admission.attemptId in db.attempts)
    ensures SameLedgers(db, Apply(db, op))
  {
    hide Apply;
    StripeOperationTouchesStripeRows(db, op);
  }

  lemma NothingChangesLedgers(db: Db)
    ensures SameLedgers(db, db) && SameLedgers(db, db.(sequence := db.sequence + 1))
  {
  }

  lemma ReadsLeaveLedgers(db: Db, op: Op)
    requires op.Check? || op.ListPending? || op.Mutate? || op.SkipFence?
    ensures SameLedgers(db, Apply(db, op))
  {
    hide Apply, ChangeOf;
    ReadsTouchSequence(db, op);
    NothingChangesLedgers(db);
    hide SameLedgers;
  }

  lemma OnlyFreshAdmissionsEnter(db: Db, op: Op)
    requires op.Admit? ==> !Accepts(db, op) || op.admission.attemptId in db.attempts
    ensures !ChangeOf(db, op).Enter?
  {
    hide Accepts, Prepare, ReconcileReservation, AssertFence, ListPendingStripeIntents, MayMutateFixtures,
         BeginStripeIntent, ReconcileStripeIntent, HandoffStripeIntentRecovery, ResumeRecheck, Renew, Transition,
         Cleanup, FixtureMutationWithReservation;
  }

  // Apart from admission, settlement and metered fixture writes, no operation touches the quota and fixture tables.
  lemma OthersLeaveLedgers(db: Db, op: Op)
    requires RowsAgree(db) && !op.Settle? && !op.Charge? &&
             (op.Admit? ==> !Accepts(db, op) || op.admission.attemptId in db.attempts)
    ensures SameLedgers(db, Apply(db, op)) && Apply(db, op).attempts.Keys == db.attempts.Keys
    ensures forall a :: a in db.attempts ==> Apply(db, op).attempts[a].environment == db.attempts[a].environment
  {
    hide *;
    EveryOperationMakesItsChange(db, op);
    OnlyFreshAdmissionsEnter(db, op);
    ChangeKeepsAttempts(db, Apply(db, op), ChangeOf(db, op));
    if !Accepts(db, op) {
      DeniedLeavesEverything(db, op);
      assert SameLedgers(db, db) by { NothingChangesLedgers(db); }
    } else if op.HandOff? || op.Recheck? || op.Extend? || op.Move? || op.Clean? {
      OwnershipOperationIsNoLeave(db, op);
    } else if op.Begin? || op.Reconcile? || op.Admit? {
      LeavingOperationLeavesLedgers(db, op);
    } else {
      ReadsLeaveLedgers(db, op);
    }
  }

  lemma OperationKeepsRetention(db: Db, op: Op)
    requires RowsAgree(db) && RetentionInv(db)
    ensures RetentionInv(Apply(db, op))
  {
    hide RetentionInv, RowsAgree, Prepare, ReconcileReservation, FixtureMutationWithReservation, AddsReservation;
    match op
    case Settle(reading, id, outcome, retained, verified) =>
      SettlementKeepsRetention(db, reading, id, outcome, retained, verified);
    case Charge(reading, insert, q, _) =>
      ChargeTouchesFixtures(db, reading, insert, q);
      UnrelatedChangeKeepsRetention(db, FixtureMutationWithReservation(db, reading, insert, q).db);
    case Admit(reading, expected, q, recovered, id) =>
      if Accepts(db, op) && q.attemptId !in db.attempts {
        FreshAdmissionAddsReservation(db, reading, expected, q, recovered, id);
        AdmissionKeepsRetention(db, Apply(db, op), id, q, AdmissionCapacity(db, q), Now(db.clock, reading));
      } else {
        OthersLeaveLedgers(db, op);
        UnrelatedChangeKeepsRetention(db, Apply(db, op));
      }
    case _ =>
      OthersLeaveLedgers(db, op);
      UnrelatedChangeKeepsRetention(db, Apply(db, op));
  }
}
