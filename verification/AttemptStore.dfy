// The attempt store itself: its tables as fields, each operation as one transaction over them.
module AttemptStore {
  import opened Numbers
  import opened Options
  import opened Records
  import opened Control
  import opened Ownership
  import opened RetentionLedger
  import Runs
  import Safety

  // What can still refuse an admission once its prior owners are known.
  ghost function ReplacementRefusal(db: Db, q: AdmissionRequest, recovered: set<Text>,
                                    reservationId: Text): Option<Refusal> {
    if exists b :: b in PriorOwners(db, q.key, q.environment) && !MayReplace(db, b, recovered) then
      Some(RecoveryUnverified)
    else if db.sequence >= MAX_FENCE_SEQUENCE then Some(LeaseFenceStoreUnavailable)
    else if reservationId in db.reservations || ReservationsOf(db.reservations, q.attemptId) != {} then
      Some(ConstraintViolation)
    else None
  }

  class Store {
    const expectedEnvironment: Option<Environment> // the environment this instance is pinned to, if any

    var clock: int
    var sequence: nat
    var attempts: map<Text, Attempt>
    var leases: map<Key, Lease>
    var locks: map<Resource, Lock>
    var history: seq<LeaseEvent>
    var intents: map<Text, Intent>
    var receipts: map<Text, StripeReceipt>
    var reservations: map<Text, Reservation>
    var settlements: map<Text, Settlement>
    var usage: seq<UsageEvent>
    var caseClaims: map<CaseKey, CaseClaim>
    var fixtures: map<FixtureSlot, Text>
    var cleanups: map<Text, CleanupReceipt>

    function Tables(): Db reads this {
      Db(clock, sequence, attempts, leases, locks, history, intents, receipts, reservations, settlements, usage,
         caseClaims,
         fixtures, cleanups)
    }

    ghost predicate Valid() reads this {
      Safety.Sound(Tables())
    }

    constructor (expected: Option<Environment>)
      ensures Tables() == EMPTY && Valid() && expectedEnvironment == expected
    {
      expectedEnvironment := expected;
      clock, sequence := 0, 0;
      attempts, leases, locks, history := map[], map[], map[], [];
      intents, receipts, reservations, settlements := map[], map[], map[], map[];
      usage, caseClaims, fixtures, cleanups := [], map[], map[], map[];
      new;
      Safety.EmptyIsSound();
    }

    // ---------- Statements of one transaction ----------

    method ReadClock(reading: int) returns (now: int)
      ensures now == Now(clock, reading)
    {
      now := reading;
      if reading < clock { now := clock; }
    }

    method NextFence() returns (fence: Option<nat>)
      modifies this`sequence
      ensures fence.None? <==> old(sequence) >= MAX_FENCE_SEQUENCE
      ensures fence.None? ==> sequence == old(sequence)
      ensures fence.Some? ==> sequence == old(sequence) + 1 && fence.value == sequence
    {
      if sequence >= MAX_FENCE_SEQUENCE { return None; }
      sequence := sequence + 1;
      fence := Some(sequence);
    }

    // Writes the lease row unless another fence than the expected one is found there, and logs the event.
    method PutLease(key: Key, lease: Lease, expected: Option<nat>, kind: LeaseEventKind) returns (ok: bool)
      modifies this`leases, this`history
      ensures ok <==> key !in old(leases) || (expected.Some? && old(leases)[key].fence == expected.value)
      ensures ok ==> leases == old(leases)[key := lease] && history == old(history) + [EventOf(kind, key, lease)]
      ensures !ok ==> leases == old(leases) && history == old(history)
    {
      if key in leases && (expected.None? || leases[key].fence != expected.value) { return false; }
      leases := leases[key := lease];
      history := history + [EventOf(kind, key, lease)];
      ok := true;
    }

    // Writes one lock row: inserted when none was read before, otherwise only over the row that was read.
    method PutLock(r: Resource, lock: Lock, previous: Option<Lock>) returns (ok: bool)
      modifies this`locks
      ensures ok <==> if previous.None? then r !in old(locks)
                      else r in old(locks) && old(locks)[r].attemptId == previous.value.attemptId &&
                           old(locks)[r].fence == previous.value.fence
      ensures locks == if ok then old(locks)[r := lock] else old(locks)
    {
      if previous.None? {
        ok := r !in locks;
      } else {
        ok := r in locks && locks[r].attemptId == previous.value.attemptId && locks[r].fence == previous.value.fence;
      }
      if ok { locks := locks[r := lock]; }
    }

    method PutResourceLocks(environment: Environment, lock: Lock) returns (ok: bool)
      modifies this`locks
      ensures ok
      ensures locks ==
              old(locks)[StripeAccount(environment.accountId) := lock][SupabaseProject(environment.projectRef) := lock]
    {
      var account, project := StripeAccount(environment.accountId), SupabaseProject(environment.projectRef);
      var previousAccount, previousProject := Lookup(locks, account), Lookup(locks, project);
      ok := PutLock(account, lock, previousAccount);
      if !ok { return; }
      ok := PutLock(project, lock, previousProject);
    }

    // The lease row and both lock rows of an attempt, rewritten together.
    method PutOwnership(kind: LeaseEventKind, attemptId: Text, row: Attempt, lease: Lease, expected: Option<nat>)
      requires row.key in leases ==> expected == Some(leases[row.key].fence)
      modifies this`leases, this`history, this`locks
      ensures Tables() == WithOwnership(old(Tables()), kind, attemptId, row, lease)
    {
      var written := PutLease(row.key, lease, expected, kind);
      assert written;
      var workflow := Workflow(lease.run, row.workflow.runnerLabel);
      var locked := PutResourceLocks(row.environment,
                                     Lock(attemptId, lease.fence, row.candidateSha, workflow, row.environment,
                                          lease.expiresAt));
    }

    // Sums the ledger of a scope and finds the quota records pinned there.
    method RetentionUsage(scope: Scope) returns (committed: Usage, reserved: Usage, policies: set<Usage>)
      ensures committed == Total(Retained(settlements, scope))
      ensures reserved == Total(Outstanding(reservations, settlements, scope))
      ensures policies == Policies(reservations, scope)
    {
      var retained := Retained(settlements, scope);
      committed := SumOf(retained);
      var outstanding := Outstanding(reservations, settlements, scope);
      reserved := SumOf(outstanding);
      policies := Policies(reservations, scope);
    }

    static method SumOf(entries: map<Text, Usage>) returns (sum: Usage)
      ensures sum == Total(entries)
    {
      sum := NO_USAGE;
      var rest := entries;
      while rest != map[]
        invariant sum.Plus(Total(rest)) == Total(entries)
        decreases |rest|
      {
        var k :| k in rest;
        TotalWithout(rest, k);
        assert |(rest - {k}).Keys| < |rest.Keys| by { assert (rest - {k}).Keys == rest.Keys - {k}; }
        sum := sum.Plus(rest[k]);
        rest := rest - {k};
      }
    }

    // Compares every quota key in turn, filling in what would be projected and what would remain.
    static method FillCapacity(committed: Usage, reserved: Usage, quotas: Usage, requested: Usage)
      returns (refusal: Option<Refusal>, projected: Usage, remaining: Usage)
      ensures refusal == FirstKeyRefusal(QuotaKeys(), committed, reserved, requested, quotas)
      ensures refusal.None? ==>
                projected == CapacityOf(committed, reserved, requested, quotas).projected &&
                remaining == CapacityOf(committed, reserved, requested, quotas).remaining
    {
      refusal, projected, remaining := None, NO_USAGE, NO_USAGE;
      var keys := QuotaKeys();
      var sum := committed.Plus(reserved).Plus(requested);
      for i := 0 to |keys|
        invariant FirstKeyRefusal(keys, committed, reserved, requested, quotas) ==
                  FirstKeyRefusal(keys[i..], committed, reserved, requested, quotas)
        invariant i > 0 ==> projected.attempts == sum.attempts && remaining.attempts == quotas.attempts - sum.attempts
        invariant i > 1 ==>
                    projected.databaseRows == sum.databaseRows &&
                    remaining.databaseRows == quotas.databaseRows - sum.databaseRows
        invariant i > 2 ==>
                    projected.authUsers == sum.authUsers && remaining.authUsers == quotas.authUsers - sum.authUsers
        invariant i > 3 ==>
                    projected.stripeObjects == sum.stripeObjects &&
                    remaining.stripeObjects == quotas.stripeObjects - sum.stripeObjects
      {
        var k := keys[i];
        assert keys[i..][1..] == keys[i + 1..];
        var total := committed.At(k) + reserved.At(k) + requested.At(k);
        if !(-MAX_SAFE_INTEGER <= total <= MAX_SAFE_INTEGER) {
          refusal := Some(RetentionLedgerInvalid);
          return;
        }
        if total > quotas.At(k) {
          refusal := Some(RetentionCapacityExceeded);
          return;
        }
        projected := projected.With(k, total);
        remaining := remaining.With(k, quotas.At(k) - total);
      }
    }

    static method Capacity(committed: Usage, reserved: Usage, policies: set<Usage>, quotas: Usage, requested: Usage)
      returns (reply: Reply<Capacity>)
      ensures reply == RetentionCapacity(committed, reserved, policies, quotas, requested)
    {
      if (exists p, q :: p in policies && q in policies && p != q) || !committed.Safe(0) || !reserved.Safe(0) {
        return Denied(RetentionLedgerInvalid);
      }
      if exists p :: p in policies && !p.Safe(1) { return Denied(RetentionLedgerInvalid); }
      if exists p :: p in policies && p != quotas { return Denied(RetentionPolicyMismatch); }
      var refusal, projected, remaining := FillCapacity(committed, reserved, quotas, requested);
      if refusal.Some? { return Denied(refusal.value); }
      reply := Granted(Records.Capacity.Capacity(quotas, committed, reserved, requested, projected, remaining));
    }

    // ---------- Admission ----------

    // Hands back what the admission of a known attempt granted, if it still stands.
    method ReplayAdmission(now: int, q: AdmissionRequest) returns (reply: Reply<Admitted>)
      requires Valid() && q.attemptId in attempts
      ensures reply == ReplayReply(Tables(), now, q)
    {
      hide Safety.Sound;
      var row := attempts[q.attemptId];
      if !SameIdentity(row, q) { return Denied(AttemptReplayMismatch); }
      if q.key !in leases || leases[q.key].attemptId != q.attemptId || leases[q.key].expiresAt <= now {
        return Denied(AttemptReplayExpired);
      }
      var lease := leases[q.key];
      if row.phase != Collecting || lease.candidateSha != q.candidateSha || lease.run != q.workflow.run {
        return Denied(AttemptReplayNotOwner);
      }
      if !HoldsLocks(locks, row, lease, q.attemptId, lease.fence) { return Denied(LeaseFenceLost); }
      var mine := ReservationsOf(reservations, q.attemptId);
      if mine == {} { return Denied(RetentionReservationMissing); }
      var r :| r in mine;
      Safety.OnlyReservation(Tables(), q.attemptId, r);
      var reservation := reservations[r];
      if reservation.quotas != q.quotas || reservation.projection != q.projection {
        return Denied(AttemptReplayMismatch);
      }
      if r in settlements { return Denied(RetentionAttemptSettled); }
      reply := Granted(Admitted(row, lease.fence, r, reservation.capacity));
    }

    // Reads the owner of each lock row found on the wanted resources, refusing at the first that may not be replaced.
    method LockOwners(key: Key, environment: Environment, now: int)
      returns (refusal: Option<Refusal>, owners: map<Text, Attempt>)
      ensures var account, project := StripeAccount(environment.accountId), SupabaseProject(environment.projectRef);
              var first := PriorLockRefusal(Tables(), key, now, account);
              refusal == if first.Some? then first else PriorLockRefusal(Tables(), key, now, project)
      ensures refusal.None? ==>
                owners.Keys == LockOwner(locks, StripeAccount(environment.accountId)) +
                  LockOwner(locks, SupabaseProject(environment.projectRef))
      ensures forall a :: a in owners ==> a in attempts && owners[a] == attempts[a]
    {
      refusal, owners := None, map[];
      var wanted := Resources(environment);
      for i := 0 to 2
        invariant forall j :: 0 <= j < i ==> PriorLockRefusal(Tables(), key, now, wanted[j]).None?
        invariant refusal.None?
        invariant i == 0 ==> owners.Keys == {}
        invariant i == 1 ==> owners.Keys == LockOwner(locks, wanted[0])
        invariant i == 2 ==> owners.Keys == LockOwner(locks, wanted[0]) + LockOwner(locks, wanted[1])
        invariant forall a :: a in owners ==> a in attempts && owners[a] == attempts[a]
      {
        var r := wanted[i];
        refusal := PriorLockRefusal(Tables(), key, now, r);
        if refusal.Some? { return; }
        if r in locks { owners := owners[locks[r].attemptId := attempts[locks[r].attemptId]]; }
      }
    }

    // Marks every prior owner's cleanup done, as long as each of them may be replaced; stops at one that may not.
    method RetireOwners(owners: map<Text, Attempt>, now: int, recovered: set<Text>) returns (ok: bool)
      requires forall a :: a in owners ==> a in attempts && owners[a] == attempts[a]
      modifies this`attempts
      ensures ok <==> forall b :: b in owners ==> MayReplace(old(Tables()), b, recovered)
      ensures ok ==> attempts == Retired(old(attempts), owners.Keys, now)
    {
      var rest := owners.Keys;
      while rest != {}
        invariant rest <= owners.Keys
        invariant forall b :: b in owners.Keys - rest ==> MayReplace(old(Tables()), b, recovered)
        invariant attempts == Retired(old(attempts), owners.Keys - rest, now)
      {
        var b :| b in rest;
        if HasInFlight(intents, receipts, b) || b !in recovered || !Settled(reservations, settlements, b) {
          assert !MayReplace(old(Tables()), b, recovered);
          return false;
        }
        attempts := attempts[b := owners[b].(cleanup := Done, updatedAt := now)];
        rest := rest - {b};
      }
      ok := true;
    }

    // Everything checked before the prior owners are retired, in the order in which it is read.
    method AdmissionGuards(now: int, q: AdmissionRequest, recovered: set<Text>, reservationId: Text)
      returns (refusal: Option<Refusal>, capacity: Capacity, owners: map<Text, Attempt>)
      requires ValidRetention(q.quotas, q.projection)
      ensures refusal.None? ==>
                capacity == AdmissionCapacity(Tables(), q) &&
                owners.Keys == PriorOwners(Tables(), q.key, q.environment) &&
                forall a :: a in owners ==> a in attempts && owners[a] == attempts[a]
      ensures AdmissionRefusal(Tables(), now, q, recovered, reservationId) ==
              if refusal.Some? then refusal else ReplacementRefusal(Tables(), q, recovered, reservationId)
    {
      hide PriorLockRefusal, MayReplace, RetentionCapacity, LockOwner, NamesLease, Total, Retained, Outstanding,
           Policies, CapacityOf, ReservationsOf;
      owners := map[];
      var committed, reserved, policies := RetentionUsage(ScopeOf(q.environment));
      var granted := Capacity(committed, reserved, policies, q.quotas, q.projection);
      capacity := CapacityOf(committed, reserved, q.projection, q.quotas);
      if granted.Denied? { refusal := Some(granted.refusal); return; }
      if q.key in leases && leases[q.key].expiresAt > now { refusal := Some(LeaseHeld); return; }
      refusal, owners := LockOwners(q.key, q.environment, now);
      if refusal.Some? { return; }
      refusal := PriorLeaseRefusal(Tables(), q.key, q.environment);
      if refusal.Some? { return; }
      if q.key in leases { owners := owners[leases[q.key].attemptId := attempts[leases[q.key].attemptId]]; }
    }

    // Writes the rows of an admission; a refusal part-way leaves `attempts` and `sequence` to be rolled back.
    method WriteAdmission(now: int, q: AdmissionRequest, recovered: set<Text>, reservationId: Text, capacity: Capacity,
                          owners: map<Text, Attempt>) returns (refusal: Option<Refusal>)
      requires capacity == AdmissionCapacity(Tables(), q) && owners.Keys == PriorOwners(Tables(), q.key, q.environment)
      requires forall a :: a in owners ==> a in attempts && owners[a] == attempts[a]
      modifies this
      ensures refusal == ReplacementRefusal(old(Tables()), q, recovered, reservationId)
      ensures refusal.None? ==> Tables() == AfterAdmission(old(Tables()), now, q, reservationId)
      ensures refusal.None? ==> sequence == old(sequence) + 1
      ensures refusal.Some? ==> Tables() == old(Tables()).(attempts := attempts, sequence := sequence)
    {
      hide MayReplace, PriorOwners, AdmissionCapacity, Retired, WithOwnership, FreshRow, FreshLease;
      var held := Lookup(leases, q.key);
      var retired := RetireOwners(owners, now, recovered);
      if !retired { return Some(RecoveryUnverified); }
      if sequence >= MAX_FENCE_SEQUENCE { return Some(LeaseFenceStoreUnavailable); }
      if reservationId in reservations || ReservationsOf(reservations, q.attemptId) != {} {
        return Some(ConstraintViolation);
      }
      WriteNewOwner(now, q, reservationId, capacity, if held.Some? then Some(held.value.fence) else None);
      refusal := None;
    }

    // The rows of the new owner, under a fence just drawn.
    method WriteNewOwner(now: int, q: AdmissionRequest, reservationId: Text, capacity: Capacity, previous: Option<nat>)
      requires sequence < MAX_FENCE_SEQUENCE
      requires previous == if q.key in leases then Some(leases[q.key].fence) else None
      modifies this
      ensures sequence == old(sequence) + 1
      ensures var row, written := FreshRow(q, now),
                Reservation(q.attemptId, ScopeOf(q.environment), q.quotas, q.projection, capacity, now);
              Tables() == WithOwnership(old(Tables()).(clock := now, sequence := old(sequence) + 1,
                                                       attempts := old(attempts)[q.attemptId := row],
                                                       reservations := old(reservations)[reservationId := written]),
                                        if previous.Some? then Takeover else Acquired, q.attemptId, row,
                                        FreshLease(q, old(sequence) + 1, now))
    {
      hide WithOwnership, FreshLease;
      var drawn := NextFence();
      assert drawn.Some?;
      var row := FreshRow(q, now);
      attempts := attempts[q.attemptId := row];
      clock := now;
      reservations :=
        reservations[reservationId := Reservation(q.attemptId, ScopeOf(q.environment), q.quotas, q.projection,
                                                  capacity, now)];
      PutOwnership(if previous.Some? then Takeover else Acquired, q.attemptId, row, FreshLease(q, drawn.value, now),
                   previous);
    }

    method Prepare(reading: int, q: AdmissionRequest, recovered: set<Text>, reservationId: Text)
      returns (reply: Reply<Admitted>)
      requires Valid()
      modifies this
      ensures Outcome(Tables(), reply) ==
              Control.Prepare(old(Tables()), reading, expectedEnvironment, q, recovered, reservationId)
    {
      hide Safety.Sound, AdmissionRefusal, ReplacementRefusal, AfterAdmission, AdmissionCapacity, PriorOwners,
           ReplayReply, FreshRow;
      if !ValidRetention(q.quotas, q.projection) { return Denied(RetentionPolicyInvalid); }
      if !ValidTtl(q.ttl) || q.key.projectRef != q.environment.projectRef ||
         (expectedEnvironment.Some? && expectedEnvironment.value != q.environment) {
        return Denied(AttemptInputInvalid);
      }
      var now := ReadClock(reading);
      if q.attemptId in attempts {
        reply := ReplayAdmission(now, q);
        if reply.Granted? { clock := now; }
        return;
      }
      var refusal, capacity, owners := AdmissionGuards(now, q, recovered, reservationId);
      if refusal.Some? { return Denied(refusal.value); }
      var savedAttempts, savedSequence := attempts, sequence;
      refusal := WriteAdmission(now, q, recovered, reservationId, capacity, owners);
      if refusal.Some? {
        attempts, sequence := savedAttempts, savedSequence;
        return Denied(refusal.value);
      }
      reply := Granted(Admitted(FreshRow(q, now), sequence, reservationId, capacity));
    }

    // ---------- Cleanup ----------

    // Deletes the lease row, logging its release, unless it is not this owner's or has expired.
    method DeleteLease(key: Key, attemptId: Text, fence: nat, now: int) returns (ok: bool)
      modifies this`leases, this`history
      ensures ok <==>
              key in old(leases) && old(leases)[key].attemptId == attemptId && old(leases)[key].fence == fence &&
                      old(leases)[key].expiresAt > now
      ensures ok ==>
                leases == old(leases) - {key} && history == old(history) + [EventOf(Released, key, old(leases)[key])]
      ensures !ok ==> leases == old(leases)
    {
      if key !in leases || leases[key].attemptId != attemptId || leases[key].fence != fence { return false; }
      history := history + [EventOf(Released, key, leases[key])];
      if leases[key].expiresAt <= now { return false; }
      leases := leases - {key};
      ok := true;
    }

    method DeleteResourceLocks(environment: Environment, attemptId: Text, fence: nat, now: int) returns (ok: bool)
      modifies this`locks
      ensures ok <==> forall r :: r in Resources(environment) ==>
                        r in old(locks) && old(locks)[r].attemptId == attemptId && old(locks)[r].fence == fence &&
                        old(locks)[r].expiresAt > now
      ensures ok ==>
                locks == old(locks) - {StripeAccount(environment.accountId), SupabaseProject(environment.projectRef)}
    {
      var wanted := Resources(environment);
      for i := 0 to 2
        invariant locks == old(locks) - (set j | 0 <= j < i :: wanted[j])
        invariant forall j :: 0 <= j < i ==>
                    var r := wanted[j];
                    r in old(locks) && old(locks)[r].attemptId == attemptId && old(locks)[r].fence == fence &&
                    old(locks)[r].expiresAt > now
      {
        var r := wanted[i];
        if r !in locks || locks[r].attemptId != attemptId || locks[r].fence != fence || locks[r].expiresAt <= now {
          return false;
        }
        locks := locks - {r};
      }
      assert (set j | 0 <= j < 2 :: wanted[j]) == {wanted[0], wanted[1]};
      ok := true;
    }

    // Deletes an owner's lease row and both its lock rows, or none of them.
    method Release(row: Attempt, attemptId: Text, fence: nat, now: int) returns (ok: bool)
      requires row.key in leases && leases[row.key].attemptId == attemptId && leases[row.key].fence == fence
      requires HoldsLocks(locks, row, leases[row.key], attemptId, fence)
      modifies this`leases, this`history, this`locks
      ensures ok <==> old(leases)[row.key].expiresAt > now
      ensures ok ==>
                leases == old(leases) - {row.key} &&
                history == old(history) + [EventOf(Released, row.key, old(leases)[row.key])] &&
                locks == old(locks) - {StripeAccount(row.environment.accountId),
                                       SupabaseProject(row.environment.projectRef)}
      ensures !ok ==> leases == old(leases) && history == old(history) && locks == old(locks)
    {
      hide EventOf;
      var savedHistory := history;
      ok := DeleteLease(row.key, attemptId, fence, now);
      if !ok { history := savedHistory; return; }
      var released := DeleteResourceLocks(row.environment, attemptId, fence, now);
      assert released;
    }

    // Everything the store checks before it writes the cleanup receipt.
    method CleanupGuards(now: int, attemptId: Text, fence: nat, verified: bool) returns (refusal: Option<Refusal>)
      requires Valid()
      ensures refusal == CleanupGuard(Tables(), now, attemptId, fence, verified)
      ensures refusal.None? ==>
                attemptId in attempts && Holds(Tables(), attemptId, fence) &&
                ReservationsOf(reservations, attemptId) != {}
    {
      hide Safety.Sound, HasInFlight, HoldsLocks;
      if attemptId !in attempts { return Some(AttemptMissing); }
      var row := attempts[attemptId];
      refusal := OwnerRefusal(leases, locks, row, attemptId, fence, now);
      if refusal.Some? { return; }
      if !Terminal(row.phase) { return Some(CleanupNotTerminal); }
      if HasInFlight(intents, receipts, attemptId) { return Some(StripeIntentUnresolved); }
      Safety.OwnReservationHasOwnScope(Tables(), attemptId);
      var mine := ReservationsOf(reservations, attemptId);
      if mine == {} { return Some(CleanupReceiptInvalid); }
      var r :| r in mine;
      if reservations[r].scope != ScopeOf(row.environment) { return Some(CleanupReceiptInvalid); }
      if attemptId in cleanups { return Some(CleanupReceiptConflict); }
      if !verified { return Some(CleanupUnverified); }
    }

    // The database checks a cleanup receipt by its own rules before it stores it.
    method PutCleanupReceipt(insertedAt: int, attemptId: Text, receipt: CleanupReceipt)
      returns (refusal: Option<Refusal>)
      modifies this`cleanups
      ensures refusal == CleanupRule(old(Tables()), insertedAt, attemptId, receipt)
      ensures cleanups == if refusal.None? then old(cleanups)[attemptId := receipt] else old(cleanups)
    {
      hide LocksHeld;
      if receipt.reservationId !in reservations || attemptId !in attempts { return Some(ConstraintViolation); }
      var reservation, row := reservations[receipt.reservationId], attempts[attemptId];
      if reservation.attemptId != attemptId || reservation.scope != ScopeOf(receipt.environment) ||
         row.environment != receipt.environment || !Terminal(row.phase) || row.cleanup != Pending {
        return Some(ConstraintViolation);
      }
      if !LeaseLasts(leases, attemptId, receipt.environment.projectRef, receipt.fence, insertedAt) {
        return Some(CleanupReceiptFenceMismatch);
      }
      if |LocksHeld(locks, attemptId, receipt.fence)| != 2 { return Some(ConstraintViolation); }
      cleanups := cleanups[attemptId := receipt];
      refusal := None;
    }

    // The rest of a cleanup: the attempt is marked and its rows are deleted, or nothing is.
    method FinishCleanup(now: int, releasedAt: int, attemptId: Text, fence: nat) returns (released: bool)
      requires Holds(Tables(), attemptId, fence)
      modifies this`clock, this`attempts, this`leases, this`locks, this`history
      ensures released <==> old(leases)[old(attempts)[attemptId].key].expiresAt > releasedAt
      ensures Tables() ==
              if released then AfterRelease(old(Tables()), now, releasedAt, attemptId)
              else old(Tables())
    {
      hide HoldsLocks, EventOf;
      var row := attempts[attemptId];
      released := Release(row, attemptId, fence, releasedAt);
      if !released { return; }
      attempts := attempts[attemptId := row.(cleanup := Done, updatedAt := now)];
      clock := releasedAt;
    }

    method Cleanup(reading: int, insertReading: int, releaseReading: int, attemptId: Text, fence: nat, projection: Text,
                   verified: bool) returns (reply: Reply<CleanupReceipt>)
      requires Valid()
      modifies this
      ensures Outcome(Tables(), reply) ==
              Control.Cleanup(old(Tables()), reading, insertReading, releaseReading, attemptId, fence, projection,
                              verified)
    {
      hide Safety.Sound, CleanupGuard, CleanupRule, HoldsLocks, EventOf;
      var now := ReadClock(reading);
      var refusal := CleanupGuards(now, attemptId, fence, verified);
      if refusal.Some? { return Denied(refusal.value); }
      var mine := ReservationsOf(reservations, attemptId);
      var r :| r in mine;
      Safety.OnlyReservation(Tables(), attemptId, r);
      var receipt := CleanupReceipt(r, attempts[attemptId].environment, fence, projection, now);
      var insertedAt := if now < insertReading then insertReading else now;
      var savedCleanups := cleanups;
      refusal := PutCleanupReceipt(insertedAt, attemptId, receipt);
      if refusal.Some? { return Denied(refusal.value); }
      var releasedAt := if insertedAt < releaseReading then releaseReading else insertedAt;
      var released := FinishCleanup(now, releasedAt, attemptId, fence);
      if !released {
        cleanups := savedCleanups;
        return Denied(LeaseFenceLost);
      }
      reply := Granted(receipt);
    }

    // ---------- Fenced reads ----------

    method AssertFence(reading: int, attemptId: Text, fence: nat) returns (reply: Reply<Standing>)
      ensures reply == Control.AssertFence(Tables(), reading, attemptId, fence)
    {
      if attemptId !in attempts { return Denied(AttemptMissing); }
      var row := attempts[attemptId];
      var now := ReadClock(reading);
      var refusal := OwnerRefusal(leases, locks, row, attemptId, fence, now);
      if refusal.Some? { return Denied(refusal.value); }
      reply := Granted(Standing(row, leases[row.key].expiresAt, now));
    }

    method ListPendingStripeIntents(reading: int, attemptId: Text, fence: nat) returns (reply: Reply<set<Text>>)
      ensures reply == Control.ListPendingStripeIntents(Tables(), reading, attemptId, fence)
    {
      var standing := AssertFence(reading, attemptId, fence);
      if standing.Denied? { return Denied(standing.refusal); }
      reply := Granted(PendingIntents(Tables(), attemptId));
    }

    method MayMutateFixtures(reading: int, attemptId: Text, fence: nat) returns (reply: Reply<()>)
      ensures reply == Control.MayMutateFixtures(Tables(), reading, attemptId, fence)
    {
      var standing := AssertFence(reading, attemptId, fence);
      if standing.Denied? { return Denied(standing.refusal); }
      var row := standing.value.row;
      if row.phase == Rechecking || leases[row.key].recoveryOnly { return Denied(RecoveryReadOnly); }
      reply := Granted(());
    }

    // ---------- Keeping and moving an attempt ----------

    method Renew(reading: int, attemptId: Text, fence: nat, ttl: int) returns (reply: Reply<Standing>)
      modifies this
      ensures Outcome(Tables(), reply) == Control.Renew(old(Tables()), reading, attemptId, fence, ttl)
    {
      if !ValidTtl(ttl) { return Denied(AttemptInputInvalid); }
      if attemptId !in attempts { return Denied(AttemptMissing); }
      var row := attempts[attemptId];
      var now := ReadClock(reading);
      var refusal := OwnerRefusal(leases, locks, row, attemptId, fence, now);
      if refusal.Some? { return Denied(refusal.value); }
      var lease := leases[row.key];
      clock := now;
      PutOwnership(Renewed, attemptId, row, lease.(expiresAt := now + ttl), Some(fence));
      reply := Granted(Standing(row, now + ttl, now));
    }

    method Transition(reading: int, attemptId: Text, fence: nat, from: Phase, to: Phase, artifact: Option<Artifact>,
                      resourceIds: Option<seq<Text>>) returns (reply: Reply<Attempt>)
      modifies this
      ensures Outcome(Tables(), reply) ==
              Control.Transition(old(Tables()), reading, attemptId, fence, from, to, artifact, resourceIds)
    {
      hide OwnerRefusal, MayMove;
      if attemptId !in attempts { return Denied(AttemptMissing); }
      var row := attempts[attemptId];
      var now := ReadClock(reading);
      var refusal := OwnerRefusal(leases, locks, row, attemptId, fence, now);
      if refusal.Some? { return Denied(refusal.value); }
      if row.phase != from || !MayMove(from, to) { return Denied(InvalidTransition); }
      if to == Collected && artifact.None? { return Denied(AttemptInputInvalid); }
      var changed := row.(phase := to, updatedAt := now);
      if artifact.Some? { changed := changed.(artifact := artifact); }
      if resourceIds.Some? { changed := changed.(resourceIds := resourceIds.value); }
      clock := now;
      attempts := attempts[attemptId := changed];
      reply := Granted(changed);
    }

    method RecheckGuards(attemptId: Text, q: RecheckRequest, resumable: bool, snapshotSealed: bool)
      returns (refusal: Option<Refusal>)
      ensures refusal == RecheckRefusal(Tables(), attemptId, q, resumable, snapshotSealed)
    {
      if attemptId !in attempts || attempts[attemptId].phase != Collected { return Some(InvalidTransition); }
      var row := attempts[attemptId];
      if row.key !in leases || leases[row.key].attemptId != attemptId { return Some(LeaseFenceLost); }
      var lease := leases[row.key];
      if !HoldsLocks(locks, row, lease, attemptId, lease.fence) { return Some(LeaseFenceLost); }
      if HasInFlight(intents, receipts, attemptId) || !resumable { return Some(RecoveryUnverified); }
      if !snapshotSealed { return Some(ArtifactIdentityMismatch); }
      if q.recheckRun.repository != row.workflow.run.repository || q.recheckRun.gitRef != row.workflow.run.gitRef ||
         q.recheckRun.runAttempt < 1 || q.recheckRun.runId == row.workflow.run.runId {
        return Some(RecheckIdentityMismatch);
      }
      if q.workflow != row.workflow || q.environment != row.environment || q.candidateSha != row.candidateSha ||
         q.currentHeadSha != q.candidateSha || q.artifact != row.artifact { return Some(RecheckIdentityMismatch); }
      if !ValidTtl(q.ttl) { return Some(AttemptInputInvalid); }
      if sequence >= MAX_FENCE_SEQUENCE { return Some(LeaseFenceStoreUnavailable); }
      refusal := None;
    }

    method ResumeRecheck(reading: int, attemptId: Text, q: RecheckRequest, resumable: bool, snapshotSealed: bool)
      returns (reply: Reply<Standing>)
      modifies this
      ensures Outcome(Tables(), reply) ==
              Control.ResumeRecheck(old(Tables()), reading, attemptId, q, resumable, snapshotSealed)
    {
      var refusal := RecheckGuards(attemptId, q, resumable, snapshotSealed);
      if refusal.Some? { return Denied(refusal.value); }
      var row := attempts[attemptId];
      var lease := leases[row.key];
      var now := ReadClock(reading);
      var drawn := NextFence();
      assert drawn.Some?;
      reply := HandOver(RecheckHandoff, now, attemptId, row,
                        lease.(fence := drawn.value, expiresAt := now + q.ttl, candidateSha := q.candidateSha,
                               run := q.recheckRun));
    }

    // Rewrites an attempt's ownership under a fence just drawn and moves it to rechecking.
    method HandOver(kind: LeaseEventKind, now: int, attemptId: Text, row: Attempt, lease: Lease)
      returns (reply: Reply<Standing>)
      requires attemptId in attempts && row.key in leases && sequence > 0
      modifies this
      ensures Tables() == AfterHandoff(old(Tables()).(sequence := old(sequence) - 1), now, kind, attemptId, row, lease)
      ensures reply == Granted(Standing(row.(phase := Rechecking, updatedAt := now), lease.expiresAt, now))
    {
      clock := now;
      PutOwnership(kind, attemptId, row, lease, Some(leases[row.key].fence));
      var changed := row.(phase := Rechecking, updatedAt := now);
      attempts := attempts[attemptId := changed];
      reply := Granted(Standing(changed, lease.expiresAt, now));
    }

    method RecoveryGuards(attemptId: Text, fence: nat, ttl: int, verdict: RecoveryVerdict)
      returns (refusal: Option<Refusal>)
      ensures refusal == RecoveryRefusal(Tables(), attemptId, fence, ttl, verdict)
    {
      if !ValidTtl(ttl) { return Some(AttemptInputInvalid); }
      if attemptId !in attempts { return Some(RecoveryUnverified); }
      var row := attempts[attemptId];
      if !(Terminal(row.phase) || row.phase == Rechecking) || row.cleanup == Done { return Some(RecoveryUnverified); }
      if row.key !in leases || leases[row.key].attemptId != attemptId || leases[row.key].fence != fence {
        return Some(LeaseFenceLost);
      }
      var lease := leases[row.key];
      if !HoldsLocks(locks, row, lease, attemptId, fence) { return Some(LeaseFenceLost); }
      var pending := PendingIntents(Tables(), attemptId);
      if pending == {} && (!lease.recoveryOnly || attemptId in cleanups) { return Some(RecoveryUnverified); }
      if ReservationsOf(reservations, attemptId) == {} || Settled(reservations, settlements, attemptId) {
        return Some(RecoveryUnverified);
      }
      if lease.run.repository != row.workflow.run.repository || lease.run.gitRef != row.workflow.run.gitRef {
        return Some(RecoveryUnverified);
      }
      if !verdict.runTerminal || !verdict.runnerRemoved || verdict.currentRun.None? { return Some(RecoveryUnverified); }
      var current := verdict.currentRun.value;
      if current.run.repository != lease.run.repository || current.run.gitRef != lease.run.gitRef ||
         current.runnerLabel != row.workflow.runnerLabel ||
         (current.run.runId == lease.run.runId && current.run.runAttempt == lease.run.runAttempt) {
        return Some(RecoveryUnverified);
      }
      if sequence >= MAX_FENCE_SEQUENCE { return Some(LeaseFenceStoreUnavailable); }
      refusal := None;
    }

    method HandoffStripeIntentRecovery(reading: int, attemptId: Text, fence: nat, ttl: int, verdict: RecoveryVerdict)
      returns (reply: Reply<Standing>)
      modifies this
      ensures Outcome(Tables(), reply) ==
              Control.HandoffStripeIntentRecovery(old(Tables()), reading, attemptId, fence, ttl, verdict)
    {
      var refusal := RecoveryGuards(attemptId, fence, ttl, verdict);
      if refusal.Some? { return Denied(refusal.value); }
      var row := attempts[attemptId];
      var lease := leases[row.key];
      var now := ReadClock(reading);
      var drawn := NextFence();
      assert drawn.Some?;
      reply := HandOver(RecoveryHandoff, now, attemptId, row,
                        lease.(fence := drawn.value, recoveryOnly := true, expiresAt := now + ttl,
                               run := verdict.currentRun.value.run));
    }

    // ---------- Stripe intents ----------

    method BeginStripeIntent(reading: int, q: IntentRequest, intentId: Text) returns (reply: Reply<Intent>)
      modifies this
      ensures Outcome(Tables(), reply) == Control.BeginStripeIntent(old(Tables()), reading, q, intentId)
    {
      if q.attemptId !in attempts { return Denied(AttemptMissing); }
      var row := attempts[q.attemptId];
      var now := ReadClock(reading);
      var refusal := OwnerRefusal(leases, locks, row, q.attemptId, q.fence, now);
      if refusal.Some? { return Denied(refusal.value); }
      if row.phase == Rechecking || leases[row.key].recoveryOnly { return Denied(RecoveryReadOnly); }
      if q.candidateSha != row.candidateSha || q.workflow != row.workflow || q.environment != row.environment {
        return Denied(StripeIntentIdentityMismatch);
      }
      if OperationTaken(intents, q.attemptId, q.operation) { return Denied(StripeIntentUnresolved); }
      if intentId in intents || IdempotencyTaken(intents, row.environment.accountId, q.idempotencyKey) {
        return Denied(ConstraintViolation);
      }
      var intent :=
        Intent(q.attemptId, q.fence, row.environment.accountId, row.candidateSha, row.workflow, row.environment,
                           q.action, q.operation, q.requestDigest, q.idempotencyKey, now);
      clock := now;
      intents := intents[intentId := intent];
      reply := Granted(intent);
    }

    method ReconcileStripeIntent(reading: int, attemptId: Text, fence: nat, intentId: Text, o: Observation,
                                 verified: bool)
      returns (reply: Reply<StripeReceipt>)
      modifies this
      ensures Outcome(Tables(), reply) ==
              Control.ReconcileStripeIntent(old(Tables()), reading, attemptId, fence, intentId, o, verified)
    {
      if attemptId !in attempts { return Denied(AttemptMissing); }
      var row := attempts[attemptId];
      var now := ReadClock(reading);
      var refusal := OwnerRefusal(leases, locks, row, attemptId, fence, now);
      if refusal.Some? { return Denied(refusal.value); }
      if intentId !in intents || intents[intentId].attemptId != attemptId { return Denied(StripeIntentMissing); }
      var intent := intents[intentId];
      if row.phase == Rechecking && intent.fence == fence { return Denied(RecoveryReadOnly); }
      if intentId in receipts { return Denied(StripeIntentAlreadyReconciled); }
      if !Observes(o, intent) { return Denied(StripeObservationMismatch); }
      if o.clockDeletesAfter.Some? && o.clockDeletesAfter.value <= now {
        return Denied(StripeReconciliationWindowExpired);
      }
      if !verified { return Denied(StripeReconciliationUnverified); }
      var receipt := StripeReceipt(attemptId, fence, intent.accountId, intent.operation, intent.requestDigest,
                                   intent.idempotencyKey, o.resourceIds, now);
      clock := now;
      receipts := receipts[intentId := receipt];
      reply := Granted(receipt);
    }

    // ---------- Retention settlement ----------

    method ReconcileReservation(reading: int, reservationId: Text, outcome: RunOutcome, retained: Usage, verified: bool)
      returns (reply: Reply<Settlement>)
      modifies this
      ensures Outcome(Tables(), reply) ==
              Control.ReconcileReservation(old(Tables()), reading, reservationId, outcome, retained, verified)
    {
      if !retained.Safe(0) || retained.attempts != 1 { return Denied(RetentionReceiptInvalid); }
      if reservationId !in reservations { return Denied(RetentionReservationMissing); }
      var reservation := reservations[reservationId];
      var a := reservation.attemptId;
      if a !in attempts || reservation.scope != ScopeOf(attempts[a].environment) {
        return Denied(RetentionLedgerInvalid);
      }
      var key := attempts[a].key;
      if key !in leases || leases[key].attemptId != a { return Denied(RetentionOwnerFenceLost); }
      var fence := leases[key].fence;
      if reservationId in settlements {
        var existing := settlements[reservationId];
        if existing.outcome != outcome || existing.retained != retained || existing.ownerFence != fence {
          return Denied(RetentionAlreadySettled);
        }
        return Granted(existing);
      }
      if !retained.Within(reservation.projection) { return Denied(RetentionReceiptExceedsReservation); }
      if !verified { return Denied(RetentionReconciliationUnverified); }
      var now := ReadClock(reading);
      var settlement := Settlement(a, fence, reservation.scope, outcome, retained, now);
      if !SettlementAllowed(reservations, history, reservationId, settlement) { return Denied(ConstraintViolation); }
      clock := now;
      settlements := settlements[reservationId := settlement];
      reply := Granted(settlement);
    }

    // ---------- Metered fixture writes ----------

    method LatestRowsUsed(reservationId: Text) returns (rows: int)
      ensures rows == RowsUsed(usage, reservationId)
    {
      var i := |usage|;
      assert usage[..i] == usage;
      while i > 0
        invariant 0 <= i <= |usage|
        invariant RowsUsed(usage, reservationId) == RowsUsed(usage[..i], reservationId)
      {
        assert usage[..i][..i - 1] == usage[..i - 1];
        if usage[i - 1].reservationId == reservationId { return usage[i - 1].currentRows; }
        i := i - 1;
      }
      rows := 0;
    }

    // Claims the case, which the database checks by its own rule first, then the fixture; a refusal after the first
    // insert leaves that insert to be rolled back.
    method ClaimFixtureCase(insertedAt: int, q: FixtureRequest, claim: CaseClaim) returns (refusal: Option<Refusal>)
      requires q.attemptId in attempts && claim == ClaimOf(q, attempts[q.attemptId])
      modifies this`caseClaims, this`fixtures
      ensures refusal == ClaimRefusal(old(Tables()), insertedAt, q)
      ensures refusal.None? ==>
                caseClaims == old(caseClaims)[CaseKey(q.attemptId, q.caseId) := claim] &&
                fixtures == old(fixtures)[FixtureSlot(q.attemptId, q.caseId, q.kind) := q.fixtureId]
      ensures refusal.Some? ==> fixtures == old(fixtures)
    {
      hide CaseClaimAllowed;
      if !CaseClaimAllowed(Tables(), insertedAt, q.attemptId, claim) { return Some(FixtureCaseClaimInvalid); }
      var caseKey := CaseKey(q.attemptId, q.caseId);
      if caseKey !in caseClaims { caseClaims := caseClaims[caseKey := claim]; }
      if caseClaims[caseKey] != claim { return Some(FixtureCaseDuplicate); }
      var slot := FixtureSlot(q.attemptId, q.caseId, q.kind);
      if slot in fixtures { return Some(FixtureCaseDuplicate); }
      if exists s :: s in fixtures && fixtures[s] == q.fixtureId { return Some(ConstraintViolation); }
      fixtures := fixtures[slot := q.fixtureId];
      refusal := None;
    }

    // The database checks a usage event by its own rule before it stores it.
    method PutUsageEvent(e: UsageEvent) returns (stored: bool)
      modifies this`usage
      ensures stored == UsageEventAllowed(reservations, old(usage), e)
      ensures usage == if stored then old(usage) + [e] else old(usage)
    {
      stored := UsageEventAllowed(reservations, usage, e);
      if stored { usage := usage + [e]; }
    }

    // Everything a metered write checks before it claims its fixture.
    method MeteredGuards(now: int, q: FixtureRequest) returns (refusal: Option<Refusal>, used: int)
      ensures refusal.None? ==>
                q.attemptId in attempts && q.reservationId in reservations && used == RowsUsed(usage, q.reservationId)
      ensures refusal == FixtureGuard(Tables(), now, q)
    {
      used := 0;
      if !(1 <= q.rows <= MAX_SAFE_INTEGER) { refusal := Some(FixtureMutationInvalid); return; }
      if q.attemptId !in attempts { refusal := Some(AttemptMissing); return; }
      var row := attempts[q.attemptId];
      refusal := OwnerRefusal(leases, locks, row, q.attemptId, q.fence, now);
      if refusal.Some? { return; }
      if row.phase != Collecting || leases[row.key].recoveryOnly { refusal := Some(RecoveryReadOnly); return; }
      if q.reservationId !in reservations { refusal := Some(RetentionReservationMissing); return; }
      var reservation := reservations[q.reservationId];
      if reservation.attemptId != q.attemptId || reservation.scope != ScopeOf(row.environment) {
        refusal := Some(FixtureReservationInvalid);
        return;
      }
      if q.reservationId in settlements { refusal := Some(RetentionAttemptSettled); return; }
      if q.rows > reservation.projection.databaseRows { refusal := Some(FixtureReservationInsufficient); return; }
      used := LatestRowsUsed(q.reservationId);
      if !(0 <= used <= reservation.projection.databaseRows) { refusal := Some(RetentionLedgerInvalid); return; }
      if used + q.rows > reservation.projection.databaseRows {
        refusal := Some(FixtureReservationInsufficient);
        return;
      }
    }

    method FixtureMutationWithReservation(reading: int, insertReading: int, q: FixtureRequest)
      returns (reply: Reply<int>)
      modifies this
      ensures Outcome(Tables(), reply) ==
              Control.FixtureMutationWithReservation(old(Tables()), reading, insertReading, q)
    {
      hide FixtureGuard, ClaimRefusal, RowsUsed, ClaimOf, UsageEventAllowed;
      var now := ReadClock(reading);
      var refusal, used := MeteredGuards(now, q);
      if refusal.Some? { return Denied(refusal.value); }
      var insertedAt := if now < insertReading then insertReading else now;
      var savedClaims, savedFixtures := caseClaims, fixtures;
      refusal := ClaimFixtureCase(insertedAt, q, ClaimOf(q, attempts[q.attemptId]));
      if refusal.Some? {
        caseClaims := savedClaims;
        return Denied(refusal.value);
      }
      var stored := PutUsageEvent(UsageEvent(q.reservationId, q.attemptId, used, used + q.rows));
      if !stored {
        caseClaims, fixtures := savedClaims, savedFixtures;
        return Denied(FixtureUsageInvalid);
      }
      clock := insertedAt;
      reply := Granted(reservations[q.reservationId].projection.databaseRows - used);
    }

    // ---------- Any call ----------

    method ExecuteOwnership(op: Runs.Op) returns (accepted: bool)
      requires Valid() && (op.Admit? ==> op.expected == expectedEnvironment)
      requires op.Admit? || op.HandOff? || op.Recheck? || op.Extend? || op.Move? || op.Clean?
      modifies this
      ensures Tables() == Runs.Apply(old(Tables()), op)
      ensures accepted <==> Runs.Accepts(old(Tables()), op)
    {
      hide Safety.Sound, Control.Prepare, Control.ReconcileReservation, Control.AssertFence,
           Control.ListPendingStripeIntents, Control.MayMutateFixtures, Control.BeginStripeIntent,
           Control.ReconcileStripeIntent, Control.HandoffStripeIntentRecovery, Control.ResumeRecheck, Control.Renew,
           Control.Transition, Control.Cleanup, Control.FixtureMutationWithReservation;
      match op
      case Admit(reading, _, q, recovered, id) =>
        var reply := Prepare(reading, q, recovered, id);
        accepted := reply.Granted?;
      case HandOff(reading, a, fence, ttl, verdict) =>
        var reply := HandoffStripeIntentRecovery(reading, a, fence, ttl, verdict);
        accepted := reply.Granted?;
      case Recheck(reading, a, q, resumable, snapshotSealed) =>
        var reply := ResumeRecheck(reading, a, q, resumable, snapshotSealed);
        accepted := reply.Granted?;
      case Extend(reading, a, fence, ttl) =>
        var reply := Renew(reading, a, fence, ttl);
        accepted := reply.Granted?;
      case Move(reading, a, fence, from, to, artifact, resourceIds) =>
        var reply := Transition(reading, a, fence, from, to, artifact, resourceIds);
        accepted := reply.Granted?;
      case Clean(reading, insert, release, a, fence, projection, verified) =>
        var reply := Cleanup(reading, insert, release, a, fence, projection, verified);
        accepted := reply.Granted?;
    }

    method ExecuteLedger(op: Runs.Op) returns (accepted: bool)
      requires !op.Admit? && !op.HandOff? && !op.Recheck? && !op.Extend? && !op.Move? && !op.Clean?
      modifies this
      ensures Tables() == Runs.Apply(old(Tables()), op)
      ensures accepted <==> Runs.Accepts(old(Tables()), op)
    {
      hide Safety.Sound, Control.Prepare, Control.ReconcileReservation, Control.AssertFence,
           Control.ListPendingStripeIntents, Control.MayMutateFixtures, Control.BeginStripeIntent,
           Control.ReconcileStripeIntent, Control.HandoffStripeIntentRecovery, Control.ResumeRecheck, Control.Renew,
           Control.Transition, Control.Cleanup, Control.FixtureMutationWithReservation;
      match op
      case Settle(reading, id, outcome, retained, verified) =>
        var reply := ReconcileReservation(reading, id, outcome, retained, verified);
        accepted := reply.Granted?;
      case Begin(reading, q, id) =>
        var reply := BeginStripeIntent(reading, q, id);
        accepted := reply.Granted?;
      case Reconcile(reading, a, fence, id, o, verified) =>
        var reply := ReconcileStripeIntent(reading, a, fence, id, o, verified);
        accepted := reply.Granted?;
      case Charge(reading, insert, q, _) =>
        var reply := FixtureMutationWithReservation(reading, insert, q);
        accepted := reply.Granted?;
      case Check(reading, a, fence) =>
        var reply := AssertFence(reading, a, fence);
        accepted := reply.Granted?;
      case ListPending(reading, a, fence) =>
        var reply := ListPendingStripeIntents(reading, a, fence);
        accepted := reply.Granted?;
      case Mutate(reading, a, fence) =>
        var reply := MayMutateFixtures(reading, a, fence);
        accepted := reply.Granted?;
      case SkipFence =>
        var drawn := NextFence();
        accepted := true;
    }

    // Whatever a client calls is one step of a run: it changes the tables as that step does, and keeps them valid.
    method Execute(op: Runs.Op) returns (accepted: bool)
      requires Valid()
      requires op.Admit? ==> op.expected == expectedEnvironment
      modifies this
      ensures Tables() == Runs.Apply(old(Tables()), op) && Valid()
      ensures accepted <==> Runs.Accepts(old(Tables()), op)
    {
      hide Safety.Sound, Runs.Apply, Runs.Accepts;
      Safety.OperationKeepsSound(Tables(), op);
      if op.Admit? || op.HandOff? || op.Recheck? || op.Extend? || op.Move? || op.Clean? {
        accepted := ExecuteOwnership(op);
      } else {
        accepted := ExecuteLedger(op);
      }
    }
  }
}
