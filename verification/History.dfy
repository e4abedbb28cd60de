// The append-only lease history and what can be rebuilt from it.
module History {
  import opened Options
  import opened Records
  import opened Control
  import opened Ownership
  import opened Changes

  // What the history knows of a held lease.
  datatype Tenure = Tenure(attemptId: Text, fence: nat, expiresAt: int, runId: Text, runAttempt: int)

  function TenureOf(e: LeaseEvent): Tenure {
    Tenure(e.attemptId, e.fence, e.expiresAt, e.runId, e.runAttempt)
  }

  function LeaseTenure(leases: map<Key, Lease>, key: Key): Option<Tenure> {
    if key in leases then
      var lease := leases[key];
      Some(Tenure(lease.attemptId, lease.fence, lease.expiresAt, lease.run.runId, lease.run.runAttempt))
    else None
  }

  // Who holds `key` after the events of `history`, oldest first.
  function Replay(history: seq<LeaseEvent>, key: Key): Option<Tenure> {
    if history == [] then None
    else
      var last := history[|history| - 1];
      if last.key != key then Replay(history[..|history| - 1], key)
      else if last.kind == Released then None
      else Some(TenureOf(last))
  }

  // The event types that may come next on a key, and what they may change.
  predicate MayFollow(held: Option<Tenure>, e: LeaseEvent) {
    match e.kind
    case Acquired => held.None?
    case Takeover => held.Some? && held.value.attemptId != e.attemptId && held.value.fence < e.fence
    case Renewed => held.Some? && TenureOf(e) == held.value.(expiresAt := e.expiresAt)
    case Released => held == Some(TenureOf(e))
    case _ => held.Some? && held.value.attemptId == e.attemptId && held.value.fence < e.fence
  }

  predicate Admits(kind: LeaseEventKind) {
    kind == Acquired || kind == Takeover
  }

  predicate Issues(kind: LeaseEventKind) {
    kind != Renewed && kind != Released
  }

  predicate FencesBelow(history: seq<LeaseEvent>, fence: nat) {
    forall i :: 0 <= i < |history| ==> history[i].fence < fence
  }

  // Every event may follow the ones before it on its key; a new fence exceeds every fence used before on any key.
  predicate WellFormed(history: seq<LeaseEvent>) {
    history == [] ||
    (WellFormed(history[..|history| - 1]) &&
     var last := history[|history| - 1];
     MayFollow(Replay(history[..|history| - 1], last.key), last) &&
     (Issues(last.kind) ==> FencesBelow(history[..|history| - 1], last.fence)))
  }

  // The fence under which `a` was admitted.
  function AdmissionFence(history: seq<LeaseEvent>, a: Text): Option<nat> {
    if history == [] then None
    else
      var earlier := AdmissionFence(history[..|history| - 1], a);
      var last := history[|history| - 1];
      if earlier.Some? then earlier
      else if last.attemptId == a && Admits(last.kind) then Some(last.fence)
      else None
  }

  lemma AppendDropsBack<T>(s: seq<T>, x: T)
    ensures (s + [x])[..|s + [x]| - 1] == s && (s + [x])[|s + [x]| - 1] == x
  {
  }

  predicate EventAgrees(db: Db, e: LeaseEvent) {
    e.attemptId in db.attempts && e.fence <= db.sequence && db.attempts[e.attemptId].key == e.key
  }

  ghost predicate HistoryInv(db: Db) {
    WellFormed(db.history) &&
    (forall k :: Replay(db.history, k) == LeaseTenure(db.leases, k)) &&
    (forall i :: 0 <= i < |db.history| ==> EventAgrees(db, db.history[i]))
  }

  lemma ReplayAfterEvent(history: seq<LeaseEvent>, e: LeaseEvent, key: Key)
    ensures Replay(history + [e], key) ==
            if e.key != key then Replay(history, key) else if e.kind == Released then None else Some(TenureOf(e))
  {
    AppendDropsBack(history, e);
  }

  lemma WellFormedAfterEvent(history: seq<LeaseEvent>, e: LeaseEvent)
    requires WellFormed(history) && MayFollow(Replay(history, e.key), e)
    requires Issues(e.kind) ==> FencesBelow(history, e.fence)
    ensures WellFormed(history + [e])
  {
    AppendDropsBack(history, e);
  }

  // An event that describes the lease row written beside it keeps the history and the lease table in step.
  lemma EventKeepsHistory(db: Db, after: Db, e: LeaseEvent)
    requires HistoryInv(db) && after.history == db.history + [e]
    requires MayFollow(LeaseTenure(db.leases, e.key), e) && (Issues(e.kind) ==> db.sequence < e.fence)
    requires forall k :: LeaseTenure(after.leases, k) ==
                         if k != e.key then LeaseTenure(db.leases, k)
                         else if e.kind == Released then None else Some(TenureOf(e))
    requires db.sequence <= after.sequence && e.fence <= after.sequence
    requires e.attemptId in after.attempts && after.attempts[e.attemptId].key == e.key
    requires forall a :: a in db.attempts ==> a in after.attempts && after.attempts[a].key == db.attempts[a].key
    ensures HistoryInv(after)
  {
    WellFormedAfterEvent(db.history, e);
    forall k ensures Replay(after.history, k) == LeaseTenure(after.leases, k) {
      ReplayAfterEvent(db.history, e, k);
    }
  }

  lemma ChangeKeepsHistory(db: Db, after: Db, change: Change)
    requires RowsAgree(db) && HistoryInv(db) && Makes(db, after, change)
    ensures HistoryInv(after)
  {
    hide HoldsLocks, LockRowAgrees, WellFormed, Replay;
    match change
    case Leave =>
    case MoveRow(a, row) =>
    case Rewrite(a, row, lease, kind) => RewriteKeepsHistory(db, after, a, row, lease, kind);
    case Enter(now, q) => EntryKeepsHistory(db, after, now, q);
    case Release(a, row) => EventKeepsHistory(db, after, EventOf(Released, row.key, db.leases[row.key]));
  }

  lemma RewriteKeepsHistory(db: Db, after: Db, a: Text, row: Attempt, lease: Lease, kind: LeaseEventKind)
    requires RowsAgree(db) && HistoryInv(db) && Makes(db, after, Rewrite(a, row, lease, kind))
    ensures HistoryInv(after)
  {
    hide HoldsLocks, LockRowAgrees, WellFormed, Replay;
    assert LeaseRowAgrees(db, row.key);
    EventKeepsHistory(db, after, EventOf(kind, row.key, lease));
  }

  lemma EntryKeepsHistory(db: Db, after: Db, now: int, q: AdmissionRequest)
    requires RowsAgree(db) && HistoryInv(db) && Makes(db, after, Enter(now, q))
    ensures HistoryInv(after)
  {
    hide HoldsLocks, LockRowAgrees, WellFormed, Replay;
    if q.key in db.leases { assert LeaseRowAgrees(db, q.key); }
    EventKeepsHistory(db, after,
                      EventOf(if q.key in db.leases then Takeover else Acquired, q.key,
                              FreshLease(q, after.sequence, now)));
  }
}
